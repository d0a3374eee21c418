/** Squares packed into one byte (src/game/board/position.rs): `rank << 3 | file`, so the
    index of a square in the board's 64-cell array. Rank and file below 8 make the shift
    and the bitwise or the same as `rank * 8 + file`, which is the form used here
    (`PackingIsBitwise` shows the two agree). */
module Squares {
  import opened Wrappers
  import opened Pieces
  import opened Positions

  type Square = s: int | 0 <= s < 64

  /** `Position::new`; the source debug-asserts both coordinates are below 8. */
  function New(rank: int, file: int): (s: Square)
    requires 0 <= rank < 8 && 0 <= file < 8
    ensures Rank(s) == rank && File(s) == file
  {
    rank * 8 + file
  }

  /** `self.0 >> 3` */
  function Rank(s: Square): (r: int)
    ensures 0 <= r < 8
  {
    s / 8
  }

  /** `self.0 & 0b111` */
  function File(s: Square): (f: int)
    ensures 0 <= f < 8
  {
    s % 8
  }

  /** The source's byte arithmetic: for coordinates below 8, `rank << 3 | file` stays below
      64, `>> 3` recovers the rank and `& 0b111` the file, exactly as `New`, `Rank` and
      `File` do on integers. */
  lemma PackingIsBitwise(rank: bv8, file: bv8)
    requires rank < 8 && file < 8
    ensures ((rank << 3) | file) < 64
    ensures ((rank << 3) | file) >> 3 == rank
    ensures ((rank << 3) | file) & 7 == file
    ensures ((rank << 3) | file) == rank * 8 + file
  {
  }

  /** Every square is the packing of its own rank and file, so a square is determined by
      its two coordinates. */
  lemma NewOfCoordinates(s: Square)
    ensures New(Rank(s), File(s)) == s
  {
  }

  lemma SameCoordinates(s: Square, t: Square)
    requires Rank(s) == Rank(t) && File(s) == File(t)
    ensures s == t
  {
    NewOfCoordinates(s);
    NewOfCoordinates(t);
  }

  /** `Movement::up`: `None` on the top rank. */
  function Up(s: Square): (r: Option<Square>)
    ensures r.None? <==> Rank(s) == 7
    ensures r.Some? ==> Rank(r.value) == Rank(s) + 1 && File(r.value) == File(s)
  {
    if Rank(s) < 7 then Some(s + 8) else None
  }

  /** `Movement::down`: `None` on the bottom rank. */
  function Down(s: Square): (r: Option<Square>)
    ensures r.None? <==> Rank(s) == 0
    ensures r.Some? ==> Rank(r.value) == Rank(s) - 1 && File(r.value) == File(s)
  {
    if Rank(s) > 0 then Some(s - 8) else None
  }

  /** `Movement::left`: `None` on file 0. */
  function Left(s: Square): (r: Option<Square>)
    ensures r.None? <==> File(s) == 0
    ensures r.Some? ==> Rank(r.value) == Rank(s) && File(r.value) == File(s) - 1
  {
    if File(s) > 0 then Some(s - 1) else None
  }

  /** `Movement::right`: `None` on file 7. */
  function Right(s: Square): (r: Option<Square>)
    ensures r.None? <==> File(s) == 7
    ensures r.Some? ==> Rank(r.value) == Rank(s) && File(r.value) == File(s) + 1
  {
    if File(s) < 7 then Some(s + 1) else None
  }

  function Pawn(s: Square, color: PieceColor): Option<Square>
  {
    match color
    case White => Up(s)
    case Black => Down(s)
  }

  // `Movement` for `Option<Position>`: each step is `and_then` of the single step.

  function UpFrom(o: Option<Square>): Option<Square>
  {
    match o
    case None => None
    case Some(s) => Up(s)
  }

  function DownFrom(o: Option<Square>): Option<Square>
  {
    match o
    case None => None
    case Some(s) => Down(s)
  }

  function LeftFrom(o: Option<Square>): Option<Square>
  {
    match o
    case None => None
    case Some(s) => Left(s)
  }

  function RightFrom(o: Option<Square>): Option<Square>
  {
    match o
    case None => None
    case Some(s) => Right(s)
  }

  function PawnFrom(o: Option<Square>, color: PieceColor): Option<Square>
  {
    match o
    case None => None
    case Some(s) => Pawn(s, color)
  }

  /** `Movement::pawn` is `up` for White and `down` for Black, and the pawn steps of the two
      colours undo each other. */
  lemma PawnStep(s: Square, color: PieceColor)
    ensures Pawn(s, White) == Up(s) && Pawn(s, Black) == Down(s)
    ensures Pawn(s, color).Some? ==> Pawn(Pawn(s, color).value, color.Not()) == Some(s)
  {
  }

  /** The lifted steps propagate `None`, and a chain of two lifted steps in the same
      direction is `None` exactly when two steps leave the board; otherwise it moves two
      files (or ranks) and keeps the other coordinate. */
  lemma LiftedSteps(s: Square, color: PieceColor)
    ensures UpFrom(None) == None && DownFrom(None) == None && PawnFrom(None, color) == None
    ensures LeftFrom(None) == None && RightFrom(None) == None
    ensures UpFrom(Some(s)) == Up(s) && DownFrom(Some(s)) == Down(s)
    ensures LeftFrom(Some(s)) == Left(s) && RightFrom(Some(s)) == Right(s)
    ensures PawnFrom(Some(s), color) == Pawn(s, color)
    ensures LeftFrom(Left(s)).None? <==> File(s) < 2
    ensures LeftFrom(Left(s)).Some? ==> LeftFrom(Left(s)).value == New(Rank(s), File(s) - 2)
    ensures RightFrom(Right(s)).None? <==> File(s) > 5
    ensures RightFrom(Right(s)).Some? ==> RightFrom(Right(s)).value == New(Rank(s), File(s) + 2)
  {
  }

  /** `Display`: the file letter followed by the rank number. */
  function ToString(s: Square): (r: string)
    ensures |r| == 2
    ensures r[0] as int - 'a' as int == File(s) && r[1] as int - '1' as int == Rank(s)
  {
    [('a' as int + File(s)) as char, ('1' as int + Rank(s)) as char]
  }

  // Relating the packed square to the unpacked `Positions.Position`: the packed form can
  // hold exactly the positions for which `IsValid` holds.

  function ToSquare(p: Position): Square
    requires p.IsValid()
  {
    p.rank * 8 + p.file
  }

  /** Packing a position keeps its rank and file. */
  lemma ToSquareCoordinates(p: Position)
    requires p.IsValid()
    ensures Rank(ToSquare(p)) == p.rank && File(ToSquare(p)) == p.file
    ensures ToSquare(p) == New(p.rank, p.file)
  {
  }

  function ToPosition(s: Square): (p: Position)
    ensures p.IsValid()
    ensures ToSquare(p) == s
  {
    Position(Rank(s), File(s))
  }

  /** Packing and unpacking are inverse, and `Display` agrees. */
  lemma RepresentationsAgree(p: Position)
    requires p.IsValid()
    ensures ToPosition(ToSquare(p)) == p
    ensures ToString(ToSquare(p)) == p.ToString()
  {
    ToSquareCoordinates(p);
    DisplayAgrees(ToSquare(p));
  }

  lemma DisplayAgrees(s: Square)
    ensures ToString(s) == ToPosition(s).ToString()
  {
  }

  /** The steps of the two representations agree: the packed step is `None` exactly where
      the unpacked step leaves the board, and otherwise lands on the same square. */
  lemma StepsAgree(p: Position)
    requires p.IsValid()
    ensures Up(ToSquare(p)) == (if p.Up().IsValid() then Some(ToSquare(p.Up())) else None)
    ensures Down(ToSquare(p)) == (if p.Down().IsValid() then Some(ToSquare(p.Down())) else None)
    ensures Left(ToSquare(p)) == (if p.Left().IsValid() then Some(ToSquare(p.Left())) else None)
    ensures Right(ToSquare(p)) == (if p.Right().IsValid() then Some(ToSquare(p.Right())) else None)
  {
    VerticalStepsAgree(p);
    HorizontalStepsAgree(p);
  }

  lemma VerticalStepsAgree(p: Position)
    requires p.IsValid()
    ensures Up(ToSquare(p)) == (if p.Up().IsValid() then Some(ToSquare(p.Up())) else None)
    ensures Down(ToSquare(p)) == (if p.Down().IsValid() then Some(ToSquare(p.Down())) else None)
  {
    ToSquareCoordinates(p);
  }

  lemma HorizontalStepsAgree(p: Position)
    requires p.IsValid()
    ensures Left(ToSquare(p)) == (if p.Left().IsValid() then Some(ToSquare(p.Left())) else None)
    ensures Right(ToSquare(p)) == (if p.Right().IsValid() then Some(ToSquare(p.Right())) else None)
  {
    var s := ToSquare(p);
    ToSquareCoordinates(p);
    assert File(s) == p.file;
    if p.file > 0 {
      assert Left(s) == Some(s - 1);
    }
    if p.file < 7 {
      assert Right(s) == Some(s + 1);
    }
  }
}
