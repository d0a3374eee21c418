/** Squares as an unpacked rank/file pair (src/game/position.rs). The source stores both
    coordinates as `usize` and steps down or left with `wrapping_sub`, so a step off the
    low edge yields a huge value that `is_valid` rejects; here the coordinates are `int`
    and that step yields -1, which `IsValid` rejects as well. */
module Positions {
  import opened Pieces

  datatype Position = Position(rank: int, file: int) {

    function Up(): Position { Position(rank + 1, file) }

    /** `rank.wrapping_sub(1)`: from rank 0 this leaves the board. */
    function Down(): Position { Position(rank - 1, file) }

    /** `file.wrapping_sub(1)`: from file 0 this leaves the board. */
    function Left(): Position { Position(rank, file - 1) }

    function Right(): Position { Position(rank, file + 1) }

    /** `rank < 8 && file < 8`; a wrapped coordinate is never below 8 in the source and is
        negative here. */
    predicate IsValid() { 0 <= rank < 8 && 0 <= file < 8 }

    /** One step in the direction the pawns of `color` advance. */
    function Pawn(color: PieceColor): (r: Position)
      ensures r.file == file
      ensures r.rank - rank == if color == White then 1 else -1
    {
      match color
      case White => Up()
      case Black => Down()
    }

    /** `Display`: the file letter followed by the rank number, e.g. "e4". */
    function ToString(): (s: string)
      requires IsValid()
      ensures |s| == 2
      ensures 'a' <= s[0] <= 'h' && '1' <= s[1] <= '8'
      ensures s[0] as int - 'a' as int == file && s[1] as int - '1' as int == rank
    {
      [('a' as int + file) as char, ('1' as int + rank) as char]
    }
  }

  /** Each step changes exactly one coordinate by one, and opposite steps undo each other. */
  lemma StepsAreInverse(p: Position)
    ensures p.Up().Down() == p && p.Down().Up() == p
    ensures p.Right().Left() == p && p.Left().Right() == p
    ensures p.Up() != p && p.Down() != p && p.Left() != p && p.Right() != p
    ensures p.Up().Left() == p.Left().Up() && p.Up().Right() == p.Right().Up()
    ensures p.Down().Left() == p.Left().Down() && p.Down().Right() == p.Right().Down()
  {
  }

  /** From an on-board square a step stays on the board unless it crosses the edge in its
      direction; in particular `Down` from rank 0 and `Left` from file 0 never land on
      another on-board square. */
  lemma StepValidity(p: Position)
    requires p.IsValid()
    ensures p.Up().IsValid() <==> p.rank < 7
    ensures p.Down().IsValid() <==> p.rank > 0
    ensures p.Left().IsValid() <==> p.file > 0
    ensures p.Right().IsValid() <==> p.file < 7
  {
  }

  /** The pawn steps of the two colours are opposite. */
  lemma PawnStepsOpposite(p: Position, c: PieceColor)
    ensures p.Pawn(c).Pawn(c.Not()) == p
    ensures p.Pawn(White) == p.Up() && p.Pawn(Black) == p.Down()
  {
  }

  /** A colour's pawn starting rank is one pawn step from its piece starting rank. */
  lemma PawnStartOneStepFromPieceStart(c: PieceColor, file: int)
    ensures Position(c.PieceStartingRank(), file).Pawn(c) == Position(c.PawnStartingRank(), file)
  {
  }

  /** `Display` is injective on the board: two squares print the same text only if they
      are the same square. */
  lemma ToStringInjective(p: Position, q: Position)
    requires p.IsValid() && q.IsValid()
    ensures p.ToString() == q.ToString() <==> p == q
  {
    if p.ToString() == q.ToString() {
      assert p.ToString()[0] == q.ToString()[0] && p.ToString()[1] == q.ToString()[1];
    }
  }
}
