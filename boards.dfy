/** The board (src/game/board.rs): 64 cells, each empty or holding one piece, indexed by
    packed square. Boards are values; `Move`, `Promote` and `New` build a fresh array,
    update its cells in place and return its contents, and the functions `Moved`,
    `Promoted` and `Initial` say what they compute. */
module Boards {
  import opened Wrappers
  import opened Pieces
  import opened Positions
  import opened Squares

  type Board = cells: seq<Option<Piece>> | |cells| == 64 witness seq(64, _ => None)

  function AbsDiff(a: int, b: int): nat { if a < b then b - a else a - b }

  /** `Board::is_vacant` */
  predicate IsVacant(b: Board, s: Square) { b[s].None? }

  // ---------------------------------------------------------------------------------------
  // The starting position

  const BackRank: seq<PieceType> := [Rook, Knight, Bishop, Queen, King, Bishop, Knight, Rook]

  /** What `Board::new` puts on each square, by packed index: White's back rank on 0..7,
      White's pawns on 8..15, Black's pawns on 48..55, Black's back rank on 56..63. */
  function StartingPiece(s: Square): Option<Piece>
  {
    if s < 8 then Some(Piece(White, BackRank[s]))
    else if s < 16 then Some(Piece(White, Pawn))
    else if s < 48 then None
    else if s < 56 then Some(Piece(Black, Pawn))
    else Some(Piece(Black, BackRank[s - 56]))
  }

  /** The same placement by rank and file: the back rank on ranks 0 (White) and 7
      (Black), pawns on ranks 1 (White) and 6 (Black), nothing elsewhere. */
  lemma StartingPieceByRank(s: Square)
    ensures StartingPiece(s) ==
      if Rank(s) == 0 then Some(Piece(White, BackRank[File(s)]))
      else if Rank(s) == 1 then Some(Piece(White, Pawn))
      else if Rank(s) == 6 then Some(Piece(Black, Pawn))
      else if Rank(s) == 7 then Some(Piece(Black, BackRank[File(s)]))
      else None
  {
    NewOfCoordinates(s);
  }

  function Initial(): (b: Board)
    ensures forall s: Square :: b[s] == StartingPiece(s)
  {
    seq(64, s requires 0 <= s < 64 => StartingPiece(s))
  }

  /** `Board::new`: four loops over the files, Black's back rank, Black's pawns, White's
      pawns, White's back rank. */
  method New() returns (b: Board)
    ensures b == Initial()
  {
    var cells := new Option<Piece>[64](_ => None);
    var color := Black;
    for file := 0 to 8
      invariant forall s: Square ::
        cells[s] == if 56 <= s < 56 + file then StartingPiece(s) else None
    {
      cells[Squares.New(7, file)] := Some(Piece(color, BackRank[file]));
    }
    var piece := Pawn;
    for file := 0 to 8
      invariant forall s: Square ::
        cells[s] == if 56 <= s || 48 <= s < 48 + file then StartingPiece(s) else None
    {
      cells[Squares.New(6, file)] := Some(Piece(color, piece));
    }
    color := White;
    for file := 0 to 8
      invariant forall s: Square ::
        cells[s] == if 48 <= s || 8 <= s < 8 + file then StartingPiece(s) else None
    {
      cells[Squares.New(1, file)] := Some(Piece(color, piece));
    }
    for file := 0 to 8
      invariant forall s: Square ::
        cells[s] == if 48 <= s || 8 <= s < 16 || s < file then StartingPiece(s) else None
    {
      cells[Squares.New(0, file)] := Some(Piece(color, BackRank[file]));
    }
    b := cells[..];
  }


  // ---------------------------------------------------------------------------------------
  // Iteration and search

  /** The squares from `i` on that hold a piece of `color`, in increasing order. */
  function IterFrom(b: Board, color: PieceColor, i: nat): (r: seq<(Square, Piece)>)
    requires i <= 64
    ensures forall k :: 0 <= k < |r| ==>
      i <= r[k].0 && b[r[k].0] == Some(r[k].1) && r[k].1.color == color
    ensures forall k, l :: 0 <= k < l < |r| ==> r[k].0 < r[l].0
    ensures forall s: Square :: i <= s && b[s].Some? && b[s].value.color == color ==>
      (s, b[s].value) in r
    decreases 64 - i
  {
    if i == 64 then []
    else if b[i].Some? && b[i].value.color == color then [(i as Square, b[i].value)] + IterFrom(b, color, i + 1)
    else IterFrom(b, color, i + 1)
  }

  /** No piece of `color` from `i` on: nothing left to yield. */
  lemma {:induction false} NothingLeft(b: Board, color: PieceColor, i: nat)
    requires i <= 64
    requires forall s: Square :: i <= s && b[s].Some? ==> b[s].value.color != color
    ensures IterFrom(b, color, i) == []
    decreases 64 - i
  {
    if i < 64 {
      NothingLeft(b, color, i + 1);
    }
  }

  /** `Board::iter`: every square holding a piece of `color`, with that piece, in
      increasing square order, and nothing else. */
  function Iter(b: Board, color: PieceColor): (r: seq<(Square, Piece)>)
    ensures forall k :: 0 <= k < |r| ==> b[r[k].0] == Some(r[k].1) && r[k].1.color == color
    ensures forall k, l :: 0 <= k < l < |r| ==> r[k].0 < r[l].0
    ensures forall s: Square :: b[s].Some? && b[s].value.color == color ==> (s, b[s].value) in r
  {
    IterFrom(b, color, 0)
  }

  function FindFrom(b: Board, piece: Piece, i: nat): (r: Option<Square>)
    requires i <= 64
    ensures r.Some? ==> i <= r.value && b[r.value] == Some(piece)
    ensures r.Some? ==> forall s: Square :: i <= s < r.value ==> b[s] != Some(piece)
    ensures r.None? <==> forall s: Square :: i <= s ==> b[s] != Some(piece)
    decreases 64 - i
  {
    if i == 64 then None
    else if b[i] == Some(piece) then Some(i as Square)
    else FindFrom(b, piece, i + 1)
  }

  /** `Board::position_of`: the lowest square holding `piece`, `None` if there is none. */
  function PositionOf(b: Board, piece: Piece): (r: Option<Square>)
    ensures r.Some? ==> b[r.value] == Some(piece)
    ensures r.Some? ==> forall s: Square :: s < r.value ==> b[s] != Some(piece)
    ensures r.None? <==> forall s: Square :: b[s] != Some(piece)
  {
    FindFrom(b, piece, 0)
  }

  // ---------------------------------------------------------------------------------------
  // Facts about the starting position

  /** Each colour has exactly one king, on file 4 of its piece starting rank. */
  lemma InitialKings(c: PieceColor, s: Square)
    ensures Initial()[s] == Some(Piece(c, King)) <==> s == ToSquare(Position(c.PieceStartingRank(), 4))
  {
    KingHome(c);
    InitialKingIndex(c, s);
  }

  lemma KingHome(c: PieceColor)
    ensures ToSquare(Position(c.PieceStartingRank(), 4)) == if c == White then 4 else 60
  {
  }

  lemma InitialKingIndex(c: PieceColor, s: Square)
    ensures Initial()[s] == Some(Piece(c, King)) <==> s == if c == White then 4 else 60
  {
    assert Initial()[s] == StartingPiece(s);
    if s < 8 {
      BackRankKing(s);
    } else if s >= 56 {
      BackRankKing(s - 56);
    }
  }

  /** The king is the fifth piece of the back rank. */
  lemma BackRankKing(f: int)
    requires 0 <= f < 8
    ensures BackRank[f] == King <==> f == 4
  {
  }

  /** Ranks 2 to 5 start empty. */
  lemma InitialMiddleEmpty(s: Square)
    requires 2 <= Rank(s) <= 5
    ensures IsVacant(Initial(), s)
  {
  }

  lemma {:induction false} WhiteFrom(i: nat)
    requires i <= 16
    ensures |IterFrom(Initial(), White, i)| == 16 - i
    decreases 16 - i
  {
    if i < 16 {
      WhiteFrom(i + 1);
      assert Initial()[i] == StartingPiece(i);
    } else {
      forall s: Square | i <= s && Initial()[s].Some?
        ensures Initial()[s].value.color != White
      {
        assert Initial()[s] == StartingPiece(s);
      }
      NothingLeft(Initial(), White, i);
    }
  }

  lemma {:induction false} BlackFrom(i: nat)
    requires i <= 64
    ensures |IterFrom(Initial(), Black, i)| == if i <= 48 then 16 else 64 - i
    decreases 64 - i
  {
    if i < 64 {
      BlackFrom(i + 1);
    }
  }

  /** `Board::new` places sixteen pieces of each colour: 32 in all. */
  lemma InitialCounts()
    ensures |Iter(Initial(), White)| == 16 && |Iter(Initial(), Black)| == 16
  {
    WhiteFrom(0);
    BlackFrom(0);
  }

  // ---------------------------------------------------------------------------------------
  // Moving a piece

  /** The square of the pawn taken en passant: the mover's rank, the destination's file. */
  function EnPassantSquare(from: Square, to: Square): Square
  {
    Squares.New(Rank(from), File(to))
  }

  /** A pawn changing file onto an empty square (`captured.is_none()`). */
  predicate IsEnPassant(b: Board, from: Square, to: Square)
    requires b[from].Some?
  {
    b[from].value.kind == Pawn && File(from) != File(to) && b[to].None?
  }

  /** A king moving two files. */
  predicate IsCastling(b: Board, from: Square, to: Square)
    requires b[from].Some?
  {
    b[from].value.kind == King && AbsDiff(File(from), File(to)) == 2
  }

  /** Where the rook comes from and goes to when the king lands on `to`: `to.left().left()`
      and `to.right()` queenside, `to.right()` and `to.left()` kingside. */
  function RookSquares(from: Square, to: Square): (Option<Square>, Option<Square>)
  {
    if File(to) < File(from) then (LeftFrom(Left(to)), Right(to)) else (Right(to), Left(to))
  }

  /** What `Board::move` demands: a piece on `from` and, when castling, rook squares that
      exist (the `expect`s on `rook_from` and `rook_to`). */
  predicate CanMove(b: Board, from: Square, to: Square)
  {
    b[from].Some? &&
    (IsCastling(b, from, to) ==> RookSquares(from, to).0.Some? && RookSquares(from, to).1.Some?)
  }

  /** The board after `Board::move(from, to)`. The piece on `from` goes to `to`, replacing
      any occupant. A pawn changing file onto an empty square also empties the square
      beside it on its own rank; a king moving two files also carries the piece in the
      corner to the square it crossed. Every other square keeps its contents. (The source
      debug-asserts that those two squares hold an enemy pawn and a rook of the king's
      colour; the model, like a release build, moves whatever is there.) */
  function Moved(b: Board, from: Square, to: Square): (r: Board)
    requires CanMove(b, from, to)
    ensures from != to ==> r[from] == None
    ensures r[to] == if IsEnPassant(b, from, to) && EnPassantSquare(from, to) == to then None else b[from]
    ensures IsEnPassant(b, from, to) ==> r[EnPassantSquare(from, to)] == None
    ensures IsCastling(b, from, to) ==>
      var (rookFrom, rookTo) := RookSquares(from, to);
      r[rookFrom.value] == None && r[rookTo.value] == b[rookFrom.value]
    ensures forall s: Square ::
      s != from && s != to &&
      !(IsEnPassant(b, from, to) && s == EnPassantSquare(from, to)) &&
      !(IsCastling(b, from, to) && (Some(s) == RookSquares(from, to).0 || Some(s) == RookSquares(from, to).1))
      ==> r[s] == b[s]
  {
    var piece := b[from].value;
    var taken := b[from := None];
    var placed := taken[to := Some(piece)];
    var afterEnPassant :=
      if piece.kind == Pawn && File(from) != File(to) && taken[to].None?
      then placed[EnPassantSquare(from, to) := None]
      else placed;
    if piece.kind == King && AbsDiff(File(from), File(to)) == 2 then
      var (rookFrom, rookTo) := RookSquares(from, to);
      var rook := afterEnPassant[rookFrom.value];
      afterEnPassant[rookFrom.value := None][rookTo.value := rook]
    else
      afterEnPassant
  }

  /** `Board::move`, updating a copy of the cells in place. */
  method Move(b: Board, from: Square, to: Square) returns (r: Board)
    requires CanMove(b, from, to)
    ensures r == Moved(b, from, to)
  {
    var cells := new Option<Piece>[64](i => if i < 64 then b[i] else None);
    assert cells[..] == b;
    var piece := cells[from].value;
    cells[from] := None;
    var captured := cells[to];
    cells[to] := Some(piece);
    if piece.kind == Pawn && File(from) != File(to) && captured.None? {
      cells[EnPassantSquare(from, to)] := None;
    }
    if piece.kind == King && AbsDiff(File(from), File(to)) == 2 {
      var (rookFrom, rookTo) := RookSquares(from, to);
      var rook := cells[rookFrom.value];
      cells[rookFrom.value] := None;
      cells[rookTo.value] := rook;
    }
    r := cells[..];
  }

  /** The board after `Board::promote(from, to, kind)`: the pawn leaves `from` and a piece
      of its colour and of the chosen kind stands on `to`; nothing else changes. */
  function Promoted(b: Board, from: Square, to: Square, kind: PieceType): (r: Board)
    requires b[from].Some? && b[from].value.kind == Pawn
    ensures r[to] == Some(Piece(b[from].value.color, kind))
    ensures from != to ==> r[from] == None
    ensures forall s: Square :: s != from && s != to ==> r[s] == b[s]
  {
    var pawn := b[from].value;
    b[from := None][to := Some(Piece(pawn.color, kind))]
  }

  /** `Board::promote`, updating a copy of the cells in place. */
  method Promote(b: Board, from: Square, to: Square, kind: PieceType) returns (r: Board)
    requires b[from].Some? && b[from].value.kind == Pawn
    ensures r == Promoted(b, from, to, kind)
  {
    var cells := new Option<Piece>[64](i => if i < 64 then b[i] else None);
    assert cells[..] == b;
    var pawn := cells[from].value;
    cells[from] := None;
    cells[to] := Some(Piece(pawn.color, kind));
    r := cells[..];
  }
}
