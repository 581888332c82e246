/** A square of the board (Models/Position.ts). Positions are values here:
    cloning one gives an equal value and nothing is shared. */
module Positions {

  datatype Position = Position(x: int, y: int)

  /** Position.samePosition: both coordinates agree. */
  predicate SamePosition(p: Position, q: Position)
  {
    p.x == q.x && p.y == q.y
  }

  /** samePosition is exactly value equality, hence reflexive and symmetric. */
  lemma SamePositionIsEquality(p: Position, q: Position)
    ensures SamePosition(p, q) <==> p == q
    ensures SamePosition(p, p)
    ensures SamePosition(p, q) <==> SamePosition(q, p)
  {
  }

  /** Position.clone: a copy with the same coordinates. */
  function Clone(p: Position): (c: Position)
    ensures SamePosition(c, p) && c == p
  {
    Position(p.x, p.y)
  }

  /** Both coordinates lie in 0..7. */
  predicate OnBoard(p: Position)
  {
    0 <= p.x <= 7 && 0 <= p.y <= 7
  }

  /** Clones every position of a list, in order. */
  function CloneAll(ps: seq<Position>): (r: seq<Position>)
    ensures r == ps
  {
    seq(|ps|, i requires 0 <= i < |ps| => Clone(ps[i]))
  }
}
