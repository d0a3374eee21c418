/** The eight one-square steps that `Game::moves` hands to `saturate` and that the attack
    geometry follows, as compositions of the `Position` steps. */
module Directions {
  import opened Positions

  datatype Direction = North | South | West | East | NorthWest | NorthEast | SouthWest | SouthEast
  {
    /** Change of rank per step. */
    function DRank(): int
    {
      match this
      case North | NorthWest | NorthEast => 1
      case South | SouthWest | SouthEast => -1
      case West | East => 0
    }

    /** Change of file per step. */
    function DFile(): int
    {
      match this
      case West | NorthWest | SouthWest => -1
      case East | NorthEast | SouthEast => 1
      case North | South => 0
    }

    predicate IsDiagonal() { DRank() != 0 && DFile() != 0 }

    /** The closure passed to `saturate`, e.g. `|p| p.up().left()` for `NorthWest`. */
    function Step(p: Position): (r: Position)
      ensures r == Position(p.rank + DRank(), p.file + DFile())
      ensures r != p
    {
      match this
      case North => p.Up()
      case South => p.Down()
      case West => p.Left()
      case East => p.Right()
      case NorthWest => p.Up().Left()
      case NorthEast => p.Up().Right()
      case SouthWest => p.Down().Left()
      case SouthEast => p.Down().Right()
    }

    /** The square `k` steps from `p`: the rank and the file each move by `k` in the
        direction's sense. */
    function Walk(p: Position, k: int): Position
    {
      Position(if DRank() == 1 then p.rank + k else if DRank() == -1 then p.rank - k else p.rank,
               if DFile() == 1 then p.file + k else if DFile() == -1 then p.file - k else p.file)
    }
  }

  /** `Walk` is the step repeated: zero steps stay put, and one more step is `Step`. */
  lemma WalkIsRepeatedStep(dir: Direction, p: Position, k: int)
    ensures dir.Walk(p, 0) == p
    ensures dir.Walk(p, k + 1) == dir.Step(dir.Walk(p, k))
    ensures k > 0 ==> dir.Walk(p, k) != p
  {
  }

  /** The directions `saturate` is called with for a rook and for a bishop; a queen uses
      both lists, rook directions first. */
  const ROOK_DIRECTIONS: seq<Direction> := [North, West, South, East]
  const BISHOP_DIRECTIONS: seq<Direction> := [NorthWest, NorthEast, SouthWest, SouthEast]

  lemma DirectionKinds(d: Direction)
    ensures d in ROOK_DIRECTIONS <==> !d.IsDiagonal()
    ensures d in BISHOP_DIRECTIONS <==> d.IsDiagonal()
    ensures -1 <= d.DRank() <= 1 && -1 <= d.DFile() <= 1 && (d.DRank() != 0 || d.DFile() != 0)
  {
  }
}
