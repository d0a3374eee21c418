/** The move-choosing search of src/ai.rs: a total preorder on evaluations, the material
    estimate, and a depth-bounded minimax over the moves of `Game::moves`. */
module Search {
  import opened Wrappers
  import opened Pieces
  import opened Positions
  import Squares
  import Boards
  import Games
  import MoveGen
  import MoveRules
  import KingSafety

  // ---------------------------------------------------------------------------------------
  // Evaluations and their order

  /** How good a position is for White: a decided game, or a material estimate (an `i8`
      in the source). */
  datatype Evaluation = Outcome(outcome: Games.Outcome) | Estimate(n: int)

  datatype Ordering = Less | Equal | Greater
  {
    function Reverse(): Ordering
    {
      match this
      case Less => Greater
      case Equal => Equal
      case Greater => Less
    }
  }

  /** `Ord::cmp` on integers. */
  function CmpInt(a: int, b: int): Ordering
  {
    if a < b then Less else if a == b then Equal else Greater
  }

  /** `Evaluation::cmp`: a win for White above everything, a win for Black below
      everything, and in between a draw counts as the estimate 0. */
  function Cmp(a: Evaluation, b: Evaluation): Ordering
  {
    match (a, b)
    case (Outcome(Win(White)), Outcome(Win(White))) => Equal
    case (Outcome(Win(White)), _) => Greater
    case (_, Outcome(Win(White))) => Less
    case (Outcome(Win(Black)), Outcome(Win(Black))) => Equal
    case (Outcome(Win(Black)), _) => Less
    case (_, Outcome(Win(Black))) => Greater
    case (Outcome(Draw), Outcome(Draw)) => Equal
    case (Outcome(Draw), Estimate(n)) => CmpInt(0, n)
    case (Estimate(n), Outcome(Draw)) => CmpInt(n, 0)
    case (Estimate(n), Estimate(m)) => CmpInt(n, m)
  }

  /** The band of an evaluation: 1 for a win for White, -1 for a win for Black, 0 for a
      draw or an estimate. */
  function Band(e: Evaluation): int
  {
    match e
    case Outcome(Win(White)) => 1
    case Outcome(Win(Black)) => -1
    case Outcome(Draw) => 0
    case Estimate(_) => 0
  }

  /** The score within the middle band: the estimate, 0 for anything else. */
  function Score(e: Evaluation): int
  {
    if e.Estimate? then e.n else 0
  }

  /** `cmp` orders evaluations lexicographically by band, then by score. */
  lemma CmpIsLexicographic(a: Evaluation, b: Evaluation)
    ensures Cmp(a, b) == if Band(a) != Band(b) then CmpInt(Band(a), Band(b)) else CmpInt(Score(a), Score(b))
  {
  }

  /** `cmp` is a total preorder: reflexive, antisymmetric in the sense that swapping the
      arguments reverses the answer, and transitive. */
  lemma CmpIsTotalPreorder(a: Evaluation, b: Evaluation, c: Evaluation)
    ensures Cmp(a, a) == Equal
    ensures Cmp(b, a) == Cmp(a, b).Reverse()
    ensures Cmp(a, b) != Greater && Cmp(b, c) != Greater ==> Cmp(a, c) != Greater
    ensures Cmp(a, b) == Less && Cmp(b, c) != Greater ==> Cmp(a, c) == Less
    ensures Cmp(a, b) != Greater && Cmp(b, c) == Less ==> Cmp(a, c) == Less
  {
    CmpIsLexicographic(a, a);
    CmpIsLexicographic(a, b);
    CmpIsLexicographic(b, a);
    CmpIsLexicographic(b, c);
    CmpIsLexicographic(a, c);
  }

  /** A win for White is the greatest evaluation and a win for Black the least; a draw
      compares equal to the estimate 0 although the two are different values. */
  lemma CmpExtremes(e: Evaluation)
    ensures e != Outcome(Games.Win(White)) ==> Cmp(Outcome(Games.Win(White)), e) == Greater
    ensures e != Outcome(Games.Win(Black)) ==> Cmp(Outcome(Games.Win(Black)), e) == Less
    ensures Cmp(Outcome(Games.Draw), Estimate(0)) == Equal && Outcome(Games.Draw) != Estimate(0)
  {
  }

  // ---------------------------------------------------------------------------------------
  // Material

  /** `value`: the material worth of a piece type; the king counts nothing. */
  function Value(kind: PieceType): (r: int)
    ensures 0 <= r <= 9 && (r == 0 <==> kind == King)
  {
    match kind
    case Pawn => 1
    case Knight => 3
    case Bishop => 3
    case Rook => 5
    case Queen => 9
    case King => 0
  }

  /** The summed worth of the pieces an iteration yields. */
  function Material(pieces: seq<(Squares.Square, Piece)>): (r: int)
    ensures 0 <= r <= 9 * |pieces|
  {
    if pieces == [] then 0 else Value(pieces[0].1.kind) + Material(pieces[1..])
  }

  /** `estimate`: White's material minus Black's (the `i8` sums are taken as integers). */
  function EstimateOf(g: Games.Game): int
  {
    Material(Boards.Iter(g.board, White)) - Material(Boards.Iter(g.board, Black))
  }

  /** The summed worth of a row of piece types. */
  function Worth(kinds: seq<PieceType>): (r: int)
    ensures 0 <= r <= 9 * |kinds|
  {
    if kinds == [] then 0 else Value(kinds[0]) + Worth(kinds[1..])
  }

  lemma WorthStep(kinds: seq<PieceType>, i: nat)
    requires i < |kinds|
    ensures Worth(kinds[i..]) == Value(kinds[i]) + Worth(kinds[i + 1..])
  {
    assert kinds[i..][1..] == kinds[i + 1..];
  }

  /** White's pieces from square `i` on in the starting position: the rest of the back
      rank, then eight pawns. */
  lemma {:induction false} WhiteMaterialFrom(i: nat)
    requires i <= 16
    ensures Material(Boards.IterFrom(Boards.Initial(), White, i)) ==
      if i < 8 then Worth(Boards.BackRank[i..]) + 8 else 16 - i
    decreases 16 - i
  {
    var b := Boards.Initial();
    if i < 16 {
      WhiteMaterialFrom(i + 1);
      assert b[i] == Boards.StartingPiece(i);
      if i < 8 {
        WorthStep(Boards.BackRank, i);
      }
    } else {
      forall s: Squares.Square | i <= s && b[s].Some?
        ensures b[s].value.color != White
      {
        assert b[s] == Boards.StartingPiece(s);
      }
      Boards.NothingLeft(b, White, i);
    }
  }

  /** The back rank is worth 31: two rooks, two knights, two bishops and a queen. */
  lemma BackRankWorth()
    ensures Worth(Boards.BackRank) == 31
  {
    var r := Boards.BackRank;
    assert r[8..] == [];
    WorthStep(r, 7);
    WorthStep(r, 6);
    WorthStep(r, 5);
    WorthStep(r, 4);
    WorthStep(r, 3);
    WorthStep(r, 2);
    WorthStep(r, 1);
    WorthStep(r, 0);
    assert r[0..] == r;
  }

  /** Black's back rank from square `i` on in the starting position. */
  lemma {:induction false} BlackBackRankFrom(i: nat)
    requires 56 <= i <= 64
    ensures Material(Boards.IterFrom(Boards.Initial(), Black, i)) == Worth(Boards.BackRank[i - 56..])
    decreases 64 - i
  {
    if i < 64 {
      BlackBackRankFrom(i + 1);
      assert Boards.Initial()[i] == Boards.StartingPiece(i);
      WorthStep(Boards.BackRank, i - 56);
    }
  }

  /** Black's pawns and back rank from square `i` on in the starting position. */
  lemma {:induction false} BlackPawnsFrom(i: nat)
    requires 48 <= i <= 56
    ensures Material(Boards.IterFrom(Boards.Initial(), Black, i)) == 56 - i + 31
    decreases 56 - i
  {
    if i < 56 {
      BlackPawnsFrom(i + 1);
      assert Boards.Initial()[i] == Some(Piece(Black, Pawn));
    } else {
      BlackBackRankFrom(56);
      assert Boards.BackRank[0..] == Boards.BackRank;
      BackRankWorth();
    }
  }

  /** Black has no piece below square 48 in the starting position. */
  lemma {:induction false} BlackStartsAt48(i: nat)
    requires i <= 48
    ensures Boards.IterFrom(Boards.Initial(), Black, i) == Boards.IterFrom(Boards.Initial(), Black, 48)
    decreases 48 - i
  {
    if i < 48 {
      BlackStartsAt48(i + 1);
      assert Boards.Initial()[i] == Boards.StartingPiece(i);
    }
  }

  /** `estimate` of the starting position is 0: both sides have the same material. */
  lemma InitialEstimate()
    ensures EstimateOf(Games.New()) == 0
  {
    WhiteMaterialFrom(0);
    BlackStartsAt48(0);
    BlackPawnsFrom(48);
    assert Boards.BackRank[0..] == Boards.BackRank;
    BackRankWorth();
  }

  // ---------------------------------------------------------------------------------------
  // Candidate moves

  /** A move the search can play: a plain move, or a promotion to a chosen piece type. */
  datatype Move = Move(from: Position, to: Position) | Promote(from: Position, to: Position, kind: PieceType)

  /** The moves one destination stands for: the four promotions, in the order of
      `PROMOTIONS` (queen, rook, bishop, knight), when the move promotes, and the plain
      move otherwise. */
  function Expand(g: Games.Game, from: Position, to: Position): (r: seq<Move>)
    ensures |r| == if Games.IsPromotion(g, from, to) then |Games.PROMOTIONS| else 1
    ensures forall m :: m in r ==>
      m.from == from && m.to == to && (m.Promote? <==> Games.IsPromotion(g, from, to)) &&
      (m.Promote? ==> m.kind in Games.PROMOTIONS)
    ensures forall k :: k in Games.PROMOTIONS && Games.IsPromotion(g, from, to) ==> Promote(from, to, k) in r
    ensures Games.IsPromotion(g, from, to) ==>
      r[0].kind == Queen && r[1].kind == Rook && r[2].kind == Bishop && r[3].kind == Knight
  {
    if Games.IsPromotion(g, from, to) then
      var r := seq(|Games.PROMOTIONS|, i requires 0 <= i < |Games.PROMOTIONS| => Promote(from, to, Games.PROMOTIONS[i]));
      assert r[0] == Promote(from, to, Queen) && r[1] == Promote(from, to, Rook);
      assert r[2] == Promote(from, to, Bishop) && r[3] == Promote(from, to, Knight);
      r
    else [Move(from, to)]
  }

  /** The moves for the destinations `dests` of the piece on `from`, in order. */
  function PieceCandidates(g: Games.Game, from: Position, dests: seq<Position>): seq<Move>
  {
    if dests == [] then [] else Expand(g, from, dests[0]) + PieceCandidates(g, from, dests[1..])
  }

  /** The two `flat_map`s over `Game::moves`: every destination of every piece, in order,
      each expanded. */
  function Flatten(g: Games.Game, entries: seq<(Position, seq<Position>)>): seq<Move>
  {
    if entries == [] then [] else PieceCandidates(g, entries[0].0, entries[0].1) + Flatten(g, entries[1..])
  }

  lemma {:induction false} PieceCandidatesMembership(g: Games.Game, from: Position, dests: seq<Position>, m: Move)
    ensures m in PieceCandidates(g, from, dests) <==> m.from == from && m.to in dests && m in Expand(g, from, m.to)
  {
    if dests != [] {
      PieceCandidatesMembership(g, from, dests[1..], m);
      assert dests == [dests[0]] + dests[1..];
    }
  }

  lemma {:induction false} FlattenMembership(g: Games.Game, entries: seq<(Position, seq<Position>)>, m: Move)
    ensures m in Flatten(g, entries) <==>
      exists k :: 0 <= k < |entries| && entries[k].0 == m.from && m.to in entries[k].1 && m in Expand(g, m.from, m.to)
  {
    if entries != [] {
      FlattenMembership(g, entries[1..], m);
      PieceCandidatesMembership(g, entries[0].0, entries[0].1, m);
      if m in Flatten(g, entries[1..]) {
        var k :| 0 <= k < |entries[1..]| && entries[1..][k].0 == m.from && m.to in entries[1..][k].1 &&
          m in Expand(g, m.from, m.to);
        assert entries[k + 1] == entries[1..][k];
      }
      if exists k :: 0 <= k < |entries| && entries[k].0 == m.from && m.to in entries[k].1 && m in Expand(g, m.from, m.to) {
        var k :| 0 <= k < |entries| && entries[k].0 == m.from && m.to in entries[k].1 && m in Expand(g, m.from, m.to);
        if k > 0 {
          assert entries[1..][k - 1] == entries[k];
        }
      }
    }
  }

  /** The candidates of the search are exactly the expansions of the listed destinations
      of the pieces of the side to move. */
  lemma CandidatesRule(g: Games.Game, m: Move)
    requires Games.WellFormed(g)
    ensures m in Flatten(g, MoveGen.LegalMoves(g, g.turn)) <==>
      m.from.IsValid() && MoveRules.HoldsOwn(g, m.from, g.turn) &&
      m.to in MoveGen.Destinations(g, m.from) && m in Expand(g, m.from, m.to)
  {
    var all := MoveGen.LegalMoves(g, g.turn);
    FlattenMembership(g, all, m);
    MoveRules.LegalMovesEntries(g, g.turn);
    if m.from.IsValid() && MoveRules.HoldsOwn(g, m.from, g.turn) {
      MoveRules.EveryPieceListed(g, g.turn, m.from);
    }
  }

  /** What `Game::move` or `Game::promote` demands of a move. */
  predicate Playable(g: Games.Game, m: Move)
  {
    match m
    case Move(from, to) => Games.CanMove(g, from, to) && !Games.IsPromotion(g, from, to)
    case Promote(from, to, kind) =>
      from.IsValid() && to.IsValid() && Games.IsPromotion(g, from, to) && kind in Games.PROMOTIONS
  }

  lemma CandidatesArePlayable(g: Games.Game)
    requires Games.WellFormed(g)
    ensures forall m :: m in Flatten(g, MoveGen.LegalMoves(g, g.turn)) ==> Playable(g, m)
  {
    forall m | m in Flatten(g, MoveGen.LegalMoves(g, g.turn))
      ensures Playable(g, m)
    {
      CandidatesRule(g, m);
      KingSafety.DestinationsArePlayable(g, m.from, m.to);
    }
  }

  /** The moves `minimax` tries, in order; each can be played. */
  function Candidates(g: Games.Game): (r: seq<Move>)
    requires Games.WellFormed(g)
    ensures forall m :: m in r ==> Playable(g, m)
  {
    CandidatesArePlayable(g);
    Flatten(g, MoveGen.LegalMoves(g, g.turn))
  }

  /** The game after a candidate, as the loop of `minimax` computes it. */
  function Play(g: Games.Game, m: Move): (r: Games.Game)
    requires Playable(g, m)
    ensures r.turn == g.turn.Not()
  {
    match m
    case Move(from, to) => Games.Moved(g, from, to)
    case Promote(from, to, kind) => Games.Promoted(g, from, to, kind)
  }

  /** A side that is not mated has a candidate. */
  lemma NotMatedHasCandidates(g: Games.Game)
    requires Games.WellFormed(g) && !MoveGen.Mate(g, g.turn)
    ensures |Candidates(g)| > 0
  {
    MoveRules.MateMeansNoMoves(g, g.turn);
    var p: Position :| p.IsValid() && MoveRules.HoldsOwn(g, p, g.turn) && MoveGen.Destinations(g, p) != [];
    var t := MoveGen.Destinations(g, p)[0];
    var m := Expand(g, p, t)[0];
    assert m in Expand(g, p, t) && m.from == p && m.to == t;
    CandidatesRule(g, m);
    assert m in Candidates(g);
  }

  // ---------------------------------------------------------------------------------------
  // Minimax

  /** The games the search visits to depth `depth` from `g` all satisfy the conditions the
      engine's `expect`s rely on. */
  ghost predicate Searchable(g: Games.Game, depth: nat)
    decreases depth
  {
    Games.WellFormed(g) &&
    forall m :: m in Candidates(g) ==>
      Games.WellFormed(Play(g, m)) &&
      (depth > 0 && MoveGen.Status(Play(g, m)).None? ==> Searchable(Play(g, m), depth - 1))
  }

  /** What `Searchable` promises of the game after a candidate. */
  lemma SearchableChild(g: Games.Game, depth: nat, m: Move)
    requires Searchable(g, depth) && m in Candidates(g)
    ensures Games.WellFormed(Play(g, m))
    ensures depth > 0 && MoveGen.Status(Play(g, m)).None? ==>
      Searchable(Play(g, m), depth - 1) && !MoveGen.Mate(Play(g, m), Play(g, m).turn)
  {
  }

  /** The ordering `minimax` looks for when replacing its best move: greater for White,
      less for Black. */
  function Better(turn: PieceColor): Ordering
  {
    if turn == White then Greater else Less
  }

  /** The evaluation of a candidate: the outcome if the game is over after it, the
      estimate if the depth is spent, and otherwise the value of a search one level
      shallower. */
  function Evaluate(g: Games.Game, depth: nat, m: Move): Evaluation
    requires Searchable(g, depth) && m in Candidates(g)
    decreases depth, 0
  {
    var child := Play(g, m);
    SearchableChild(g, depth, m);
    var status := MoveGen.Status(child);
    if status.Some? then Outcome(status.value)
    else if depth == 0 then Estimate(EstimateOf(child))
    else MinimaxValue(child, depth - 1).1
  }

  /** Every candidate, in order, paired with its evaluation. */
  function Scored(g: Games.Game, depth: nat): (r: seq<(Move, Evaluation)>)
    requires Searchable(g, depth)
    ensures |r| == |Candidates(g)|
    ensures forall j :: 0 <= j < |r| ==> r[j] == (Candidates(g)[j], Evaluate(g, depth, Candidates(g)[j]))
    decreases depth, 1
  {
    var c := Candidates(g);
    seq(|c|, j requires 0 <= j < |c| => (c[j], Evaluate(g, depth, c[j])))
  }

  /** `best` after the loop of `minimax` has seen `scored`: a move replaces the best so
      far only when its evaluation compares strictly `better`. */
  function Pick(scored: seq<(Move, Evaluation)>, better: Ordering): (r: Option<(Move, Evaluation)>)
    ensures r.Some? <==> |scored| > 0
    ensures r.Some? ==> r.value in scored
    decreases |scored|
  {
    if scored == [] then None
    else
      var best := Pick(scored[..|scored| - 1], better);
      var last := scored[|scored| - 1];
      if best.None? || Cmp(last.1, best.value.1) == better then Some(last) else best
  }

  /** One more move seen: the scan over a longer prefix. */
  lemma PickStep(scored: seq<(Move, Evaluation)>, better: Ordering, i: nat)
    requires i < |scored|
    ensures var best := Pick(scored[..i], better);
      Pick(scored[..i + 1], better) ==
        if best.None? || Cmp(scored[i].1, best.value.1) == better then Some(scored[i]) else best
  {
    assert scored[..i + 1][..i] == scored[..i];
  }

  lemma WholePrefix(scored: seq<(Move, Evaluation)>)
    ensures scored[..|scored|] == scored
  {
  }

  /** `minimax(game, depth)`: the best candidate and its evaluation. */
  function MinimaxValue(g: Games.Game, depth: nat): (r: (Move, Evaluation))
    requires Searchable(g, depth) && !MoveGen.Mate(g, g.turn)
    ensures r.0 in Candidates(g) && r.1 == Evaluate(g, depth, r.0)
    decreases depth, 2
  {
    NotMatedHasCandidates(g);
    Pick(Scored(g, depth), Better(g.turn)).value
  }

  /** `scored[i]` is the first best of `scored` for the side that prefers `better`: every
      earlier move evaluates strictly worse and no move evaluates strictly better. */
  predicate FirstBest(scored: seq<(Move, Evaluation)>, better: Ordering, i: int)
  {
    0 <= i < |scored| &&
    (forall j :: 0 <= j < i ==> Cmp(scored[j].1, scored[i].1) == better.Reverse()) &&
    (forall j :: i <= j < |scored| ==> Cmp(scored[j].1, scored[i].1) != better)
  }

  /** One step of the scan in `minimax`: a new move replaces the best so far exactly
      when it is strictly better, and the first best is kept otherwise. */
  lemma FirstBestExtends(scored: seq<(Move, Evaluation)>, better: Ordering, i: int, x: (Move, Evaluation))
    requires better != Equal && FirstBest(scored, better, i)
    ensures Cmp(x.1, scored[i].1) == better ==> FirstBest(scored + [x], better, |scored|)
    ensures Cmp(x.1, scored[i].1) != better ==> FirstBest(scored + [x], better, i)
  {
    var s := scored + [x];
    var e := x.1;
    var b := scored[i].1;
    CmpIsTotalPreorder(e, e, e);
    CmpIsTotalPreorder(e, b, e);
    if Cmp(e, b) == better {
      forall j | 0 <= j < |scored|
        ensures Cmp(s[j].1, e) == better.Reverse()
      {
        assert s[j] == scored[j];
        CmpIsTotalPreorder(scored[j].1, b, e);
        CmpIsTotalPreorder(e, b, scored[j].1);
      }
    } else {
      forall j | 0 <= j < i
        ensures Cmp(s[j].1, s[i].1) == better.Reverse()
      {
        assert s[j] == scored[j];
      }
      forall j | i <= j < |s|
        ensures Cmp(s[j].1, s[i].1) != better
      {
        if j < |scored| {
          assert s[j] == scored[j];
        }
      }
    }
  }

  /** The scan keeps the first best move it has seen. */
  lemma {:induction false} PickIsFirstBest(scored: seq<(Move, Evaluation)>, better: Ordering)
    requires better != Equal && |scored| > 0
    ensures exists i :: FirstBest(scored, better, i) && Pick(scored, better).value == scored[i]
    decreases |scored|
  {
    var n := |scored|;
    var init := scored[..n - 1];
    var x := scored[n - 1];
    assert scored == init + [x];
    if n == 1 {
      CmpIsTotalPreorder(x.1, x.1, x.1);
      assert FirstBest(scored, better, 0);
    } else {
      PickIsFirstBest(init, better);
      var i :| FirstBest(init, better, i) && Pick(init, better).value == init[i];
      FirstBestExtends(init, better, i, x);
      var k := if Cmp(x.1, init[i].1) == better then n - 1 else i;
      assert FirstBest(scored, better, k);
      assert Pick(scored, better).value == scored[k];
    }
  }

  /** `minimax` returns the first candidate whose evaluation is best for the side to
      move: no candidate evaluates greater for White, or less for Black, and every
      earlier candidate evaluates strictly worse. */
  lemma MinimaxIsOptimal(g: Games.Game, depth: nat)
    requires Searchable(g, depth) && !MoveGen.Mate(g, g.turn)
    ensures exists i :: FirstBest(Scored(g, depth), Better(g.turn), i) && MinimaxValue(g, depth) == Scored(g, depth)[i]
  {
    NotMatedHasCandidates(g);
    PickIsFirstBest(Scored(g, depth), Better(g.turn));
  }

  /** A candidate, played as the loop of `minimax` plays it. */
  method PlayMove(g: Games.Game, m: Move) returns (r: Games.Game)
    requires Playable(g, m)
    ensures r == Play(g, m)
  {
    match m {
      case Move(from, to) =>
        r := Games.Move(g, from, to);
      case Promote(from, to, kind) =>
        r := Games.Promoted(g, from, to, kind);
    }
  }

  /** The body of the loop of `minimax` for one candidate: play it, then take the
      outcome, the estimate, or a search one level shallower. */
  method EvaluateMove(g: Games.Game, depth: nat, m: Move) returns (e: Evaluation)
    requires Searchable(g, depth) && m in Candidates(g)
    ensures e == Evaluate(g, depth, m)
    decreases depth, 0
  {
    var child := PlayMove(g, m);
    SearchableChild(g, depth, m);
    var status := MoveGen.Status(child);
    if status.Some? {
      e := Outcome(status.value);
    } else if depth == 0 {
      e := Estimate(EstimateOf(child));
    } else {
      var childMove;
      childMove, e := Minimax(child, depth - 1);
    }
  }

  /** `minimax`: tries every candidate in order and keeps the first best. */
  method Minimax(g: Games.Game, depth: nat) returns (move: Move, evaluation: Evaluation)
    requires Searchable(g, depth) && !MoveGen.Mate(g, g.turn)
    ensures (move, evaluation) == MinimaxValue(g, depth)
    decreases depth, 2
  {
    var candidates := Candidates(g);
    var better := if g.turn == White then Greater else Less;
    var best: Option<(Move, Evaluation)> := None;
    ghost var scored := Scored(g, depth);
    for i := 0 to |candidates|
      invariant candidates == Candidates(g)
      invariant best == Pick(scored[..i], better)
    {
      best := Consider(g, depth, better, best, i, candidates[i]);
    }
    WholePrefix(scored);
    NotMatedHasCandidates(g);
    move, evaluation := best.value.0, best.value.1;
  }

  /** One pass of the loop of `minimax`: evaluate candidate `i` and keep it when it is
      strictly better than the best so far. */
  method Consider(g: Games.Game, depth: nat, better: Ordering, best: Option<(Move, Evaluation)>, i: nat, m: Move)
    returns (r: Option<(Move, Evaluation)>)
    requires Searchable(g, depth) && i < |Candidates(g)| && m == Candidates(g)[i]
    requires best == Pick(Scored(g, depth)[..i], better)
    ensures r == Pick(Scored(g, depth)[..i + 1], better)
    decreases depth, 1
  {
    var e := EvaluateMove(g, depth, m);
    assert Scored(g, depth)[i] == (m, e);
    PickStep(Scored(g, depth), better, i);
    r := best;
    if best.None? || Cmp(e, best.value.1) == better {
      r := Some((m, e));
    }
  }

  /** `choose`: the move `minimax` picks. */
  method Choose(g: Games.Game, depth: nat) returns (move: Move)
    requires Searchable(g, depth) && !MoveGen.Mate(g, g.turn)
    ensures move == MinimaxValue(g, depth).0 && move in Candidates(g)
  {
    var evaluation;
    move, evaluation := Minimax(g, depth);
  }
}
