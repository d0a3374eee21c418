/** Castling rights (src/game/castling.rs): per colour, either the king has not moved and
    each rook may or may not have moved, or the king has moved and both rights are gone. */
module Castlings {
  import opened Pieces

  datatype CastlingInfo =
    | KingHasNotMoved(queensideRookHasNotMoved: bool, kingsideRookHasNotMoved: bool)
    | KingHasMoved
  {
    predicate CanCastleQueenside() { KingHasNotMoved? && queensideRookHasNotMoved }

    predicate CanCastleKingside() { KingHasNotMoved? && kingsideRookHasNotMoved }

    /** The state `move_king` leaves: no right survives and none can return. */
    function MovedKing(): (r: CastlingInfo)
      ensures !r.CanCastleQueenside() && !r.CanCastleKingside()
      ensures r.MovedQueensideRook() == r && r.MovedKingsideRook() == r
    {
      KingHasMoved
    }

    /** The state `move_queenside_rook` leaves: the queenside right is gone, the kingside
        right and whether the king has moved are as before. */
    function MovedQueensideRook(): (r: CastlingInfo)
      ensures !r.CanCastleQueenside()
      ensures r.CanCastleKingside() == CanCastleKingside()
      ensures r.KingHasMoved? == KingHasMoved?
    {
      match this
      case KingHasNotMoved(_, kingside) => KingHasNotMoved(false, kingside)
      case KingHasMoved => KingHasMoved
    }

    /** The state `move_kingside_rook` leaves: the kingside right is gone, the queenside
        right and whether the king has moved are as before. */
    function MovedKingsideRook(): (r: CastlingInfo)
      ensures !r.CanCastleKingside()
      ensures r.CanCastleQueenside() == CanCastleQueenside()
      ensures r.KingHasMoved? == KingHasMoved?
    {
      match this
      case KingHasNotMoved(queenside, _) => KingHasNotMoved(queenside, false)
      case KingHasMoved => KingHasMoved
    }
  }

  /** `CastlingInfo::new`: both rights held. */
  function NewInfo(): (r: CastlingInfo)
    ensures r.CanCastleQueenside() && r.CanCastleKingside()
  {
    KingHasNotMoved(true, true)
  }

  /** `after` grants no right that `before` did not. */
  predicate NoNewRights(before: CastlingInfo, after: CastlingInfo)
  {
    (after.CanCastleQueenside() ==> before.CanCastleQueenside()) &&
    (after.CanCastleKingside() ==> before.CanCastleKingside()) &&
    (before.KingHasMoved? ==> after.KingHasMoved?)
  }

  /** Rights never come back, and a moved king stays moved: each update grants nothing new,
      and once the king has moved no update changes the state. */
  lemma UpdatesOnlyRevoke(info: CastlingInfo)
    ensures NoNewRights(info, info.MovedKing())
    ensures NoNewRights(info, info.MovedQueensideRook())
    ensures NoNewRights(info, info.MovedKingsideRook())
    ensures info.KingHasMoved? ==>
      info.MovedKing() == info && info.MovedQueensideRook() == info && info.MovedKingsideRook() == info
  {
  }

  /** Each update is idempotent, and the two rook updates commute. */
  lemma UpdatesIdempotent(info: CastlingInfo)
    ensures info.MovedKing().MovedKing() == info.MovedKing()
    ensures info.MovedQueensideRook().MovedQueensideRook() == info.MovedQueensideRook()
    ensures info.MovedKingsideRook().MovedKingsideRook() == info.MovedKingsideRook()
    ensures info.MovedQueensideRook().MovedKingsideRook() == info.MovedKingsideRook().MovedQueensideRook()
  {
  }

  /** Granting nothing new is transitive, so any sequence of updates only revokes. */
  lemma NoNewRightsTransitive(a: CastlingInfo, b: CastlingInfo, c: CastlingInfo)
    requires NoNewRights(a, b) && NoNewRights(b, c)
    ensures NoNewRights(a, c)
  {
  }

  /** `Castling`: one `CastlingInfo` per colour, indexed by colour. */
  datatype Castling = Castling(white: CastlingInfo, black: CastlingInfo) {

    /** `Index<PieceColor>` */
    function Get(color: PieceColor): CastlingInfo
    {
      match color
      case White => white
      case Black => black
    }

    /** Replacing the entry of one colour, what an update through `IndexMut` amounts to. */
    function With(color: PieceColor, info: CastlingInfo): (r: Castling)
      ensures r.Get(color) == info && r.Get(color.Not()) == Get(color.Not())
    {
      match color
      case White => this.(white := info)
      case Black => this.(black := info)
    }
  }

  /** `Castling::new`: both colours hold both rights. */
  function New(): (r: Castling)
    ensures forall c: PieceColor :: r.Get(c).CanCastleQueenside() && r.Get(c).CanCastleKingside()
  {
    Castling(NewInfo(), NewInfo())
  }

  /** A `Castling` held in a mutable place, updated through `IndexMut` and the `&mut self`
      methods of `CastlingInfo`, as `Game::move` does with its `let mut castling` copy. */
  class CastlingRights {
    var white: CastlingInfo
    var black: CastlingInfo

    constructor (c: Castling)
      ensures Value() == c
    {
      white := c.white;
      black := c.black;
    }

    function Value(): Castling
      reads this
    {
      Castling(white, black)
    }

    /** `castling[color].move_king()` */
    method MoveKing(color: PieceColor)
      modifies this
      ensures Value() == old(Value()).With(color, old(Value()).Get(color).MovedKing())
      ensures Value().Get(color.Not()) == old(Value()).Get(color.Not())
    {
      match color {
        case White => white := KingHasMoved;
        case Black => black := KingHasMoved;
      }
    }

    /** `castling[color].move_queenside_rook()` */
    method MoveQueensideRook(color: PieceColor)
      modifies this
      ensures Value() == old(Value()).With(color, old(Value()).Get(color).MovedQueensideRook())
      ensures Value().Get(color.Not()) == old(Value()).Get(color.Not())
    {
      match color {
        case White =>
          if white.KingHasNotMoved? {
            white := white.(queensideRookHasNotMoved := false);
          }
        case Black =>
          if black.KingHasNotMoved? {
            black := black.(queensideRookHasNotMoved := false);
          }
      }
    }

    /** `castling[color].move_kingside_rook()` */
    method MoveKingsideRook(color: PieceColor)
      modifies this
      ensures Value() == old(Value()).With(color, old(Value()).Get(color).MovedKingsideRook())
      ensures Value().Get(color.Not()) == old(Value()).Get(color.Not())
    {
      match color {
        case White =>
          if white.KingHasNotMoved? {
            white := white.(kingsideRookHasNotMoved := false);
          }
        case Black =>
          if black.KingHasNotMoved? {
            black := black.(kingsideRookHasNotMoved := false);
          }
      }
    }
  }
}
