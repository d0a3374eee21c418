/** Piece kinds and colours (src/game/piece.rs). */
module Pieces {

  datatype PieceType = Pawn | Knight | Bishop | Rook | Queen | King

  datatype PieceColor = White | Black {

    /** Colour negation, Rust's `!color`. */
    function Not(): (r: PieceColor)
      ensures r != this
    {
      match this
      case White => Black
      case Black => White
    }

    /** Rank on which this colour's pawns start. */
    function PawnStartingRank(): (r: int)
      ensures 0 < r < 7
    {
      match this
      case White => 1
      case Black => 6
    }

    /** Rank on which this colour's other pieces start. */
    function PieceStartingRank(): (r: int)
      ensures r == 0 || r == 7
    {
      match this
      case White => 0
      case Black => 7
    }
  }

  datatype Piece = Piece(color: PieceColor, kind: PieceType)

  /** Negation is an involution without a fixed point: it swaps the two colours. */
  lemma NotInvolution(c: PieceColor)
    ensures c.Not().Not() == c
    ensures c.Not() != c
    ensures c.Not() == if c == White then Black else White
  {
  }

  /** The two colours start on opposite edges, and a colour's pawns start on the rank
      next to its pieces, towards the centre of the board. */
  lemma StartingRanks(c: PieceColor)
    ensures c.PieceStartingRank() + c.Not().PieceStartingRank() == 7
    ensures c.PawnStartingRank() + c.Not().PawnStartingRank() == 7
    ensures c == White ==> c.PawnStartingRank() == c.PieceStartingRank() + 1
    ensures c == Black ==> c.PawnStartingRank() == c.PieceStartingRank() - 1
  {
  }
}
