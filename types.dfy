/** Shared enumerations of the engine: the two sides and the six piece kinds. */
module Types {

  /** The two sides. The board calls them OUR and OPPONENT, the move rules
      WHITE and BLACK; OUR is White (its pawns advance towards higher y) and
      OPPONENT is Black. */
  datatype Team = White | Black {
    function Other(): (t: Team)
      ensures t != this
    {
      if this == White then Black else White
    }
  }

  datatype PieceType = Pawn | Bishop | Knight | Rook | Queen | King

  datatype Option<T> = None | Some(value: T)

  /** The kinds along a back rank, file 0 to file 7, in both setups. */
  const BackRank: seq<PieceType> := [Rook, Knight, Bishop, Queen, King, Bishop, Knight, Rook]

  function Abs(n: int): (r: nat)
    ensures r == n || r == -n
  {
    if n < 0 then -n else n
  }

  /** Math.sign on integers. */
  function Sign(n: int): (r: int)
    ensures r == -1 || r == 0 || r == 1
    ensures (r == 0) == (n == 0) && (r == 1) == (n > 0)
  {
    if n > 0 then 1 else if n < 0 then -1 else 0
  }
}
