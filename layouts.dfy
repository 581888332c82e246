/** The move generators look at where the pieces stand (square, kind, team,
    flags) and never at the pieces' own lists of possible moves. Two boards
    that differ only in those lists therefore get the same moves. Board.ts
    relies on this when it overwrites the lists one piece at a time while
    still generating from the same array. */
module Layouts {
  import opened Types
  import opened Positions
  import opened Pieces
  import opened GeneralRules
  import opened PawnRules
  import opened Leapers
  import opened Rays

  /** A piece with its list of possible moves forgotten. */
  function Stripped(p: Piece): Piece
  {
    p.(possibleMoves := [])
  }

  /** Same pieces on the same squares in the same order; only the lists of
      possible moves may differ. */
  predicate SameLayout(a: seq<Piece>, b: seq<Piece>)
  {
    |a| == |b| && forall i :: 0 <= i < |a| ==> Stripped(a[i]) == Stripped(b[i])
  }

  lemma SameLayoutTransitive(a: seq<Piece>, b: seq<Piece>, c: seq<Piece>)
    requires SameLayout(a, b) && SameLayout(b, c)
    ensures SameLayout(a, c) && SameLayout(c, a)
  {
  }

  /** Prefixes of boards with the same layout have the same layout, and so
      do boards extended by pieces that differ only in their lists. */
  lemma SameLayoutPrefix(a: seq<Piece>, b: seq<Piece>, n: nat)
    requires SameLayout(a, b) && n <= |a|
    ensures SameLayout(a[..n], b[..n])
  {
    forall i | 0 <= i < n ensures Stripped(a[..n][i]) == Stripped(b[..n][i]) {
      assert a[..n][i] == a[i] && b[..n][i] == b[i];
    }
  }

  lemma SameLayoutAppend(a: seq<Piece>, b: seq<Piece>, p: Piece, q: Piece)
    requires SameLayout(a, b) && Stripped(p) == Stripped(q)
    ensures SameLayout(a + [p], b + [q])
  {
    forall i | 0 <= i < |a| + 1 ensures Stripped((a + [p])[i]) == Stripped((b + [q])[i]) {
      if i < |a| {
        assert (a + [p])[i] == a[i] && (b + [q])[i] == b[i];
      }
    }
  }

  lemma OccupancyCongruent(a: seq<Piece>, b: seq<Piece>, pos: Position, team: Team)
    requires SameLayout(a, b)
    ensures TileIsOccupied(pos, a) == TileIsOccupied(pos, b)
    ensures TileIsOccupiedByOpponent(pos, a, team) == TileIsOccupiedByOpponent(pos, b, team)
    ensures TileIsEmptyOrOccupiedByOpponent(pos, a, team) == TileIsEmptyOrOccupiedByOpponent(pos, b, team)
  {
    forall i | 0 <= i < |a|
      ensures a[i].position == b[i].position && a[i].team == b[i].team
    {
      assert Stripped(a[i]).position == Stripped(b[i]).position;
      assert Stripped(a[i]).team == Stripped(b[i]).team;
    }
  }

  lemma {:induction false} FindAtCongruent(a: seq<Piece>, b: seq<Piece>, pos: Position)
    requires SameLayout(a, b)
    ensures FindAt(pos, a).Some? == FindAt(pos, b).Some?
    ensures FindAt(pos, a).Some? ==> Stripped(FindAt(pos, a).value) == Stripped(FindAt(pos, b).value)
  {
    if a != [] {
      assert Stripped(a[0]).position == Stripped(b[0]).position;
      FindAtCongruent(a[1..], b[1..], pos);
    }
  }

  lemma ForwardMovesCongruent(p: Piece, q: Piece, a: seq<Piece>, b: seq<Piece>)
    requires Stripped(p) == Stripped(q) && SameLayout(a, b)
    ensures ForwardMoves(p, a) == ForwardMoves(q, b)
  {
    assert p.position == q.position && p.team == q.team by {
      assert Stripped(p).position == Stripped(q).position && Stripped(p).team == Stripped(q).team;
    }
    var direction := PawnDirection(p.team);
    var normalMove := Position(p.position.x, p.position.y + direction);
    OccupancyCongruent(a, b, normalMove, p.team);
    OccupancyCongruent(a, b, Position(normalMove.x, normalMove.y + direction), p.team);
  }

  lemma EnPassantNeighbourCongruent(a: seq<Piece>, b: seq<Piece>, pos: Position)
    requires SameLayout(a, b)
    ensures EnPassantNeighbour(pos, a) == EnPassantNeighbour(pos, b)
  {
    FindAtCongruent(a, b, pos);
    if FindAt(pos, a).Some? {
      var x, y := FindAt(pos, a).value, FindAt(pos, b).value;
      assert x.enPassant == Stripped(x).enPassant && y.enPassant == Stripped(y).enPassant;
    }
  }

  lemma DiagonalMovesCongruent(p: Piece, q: Piece, a: seq<Piece>, b: seq<Piece>, side: int)
    requires Stripped(p) == Stripped(q) && SameLayout(a, b)
    ensures DiagonalMoves(p, a, side) == DiagonalMoves(q, b, side)
  {
    assert p.position == q.position && p.team == q.team by {
      assert Stripped(p).position == Stripped(q).position && Stripped(p).team == Stripped(q).team;
    }
    OccupancyCongruent(a, b, Position(p.position.x + side, p.position.y + PawnDirection(p.team)), p.team);
    EnPassantNeighbourCongruent(a, b, Position(p.position.x + side, p.position.y));
  }

  lemma PawnMovesCongruent(p: Piece, q: Piece, a: seq<Piece>, b: seq<Piece>)
    requires Stripped(p) == Stripped(q) && SameLayout(a, b)
    ensures PossiblePawnMoves(p, a) == PossiblePawnMoves(q, b)
  {
    ForwardMovesCongruent(p, q, a, b);
    DiagonalMovesCongruent(p, q, a, b, -1);
    DiagonalMovesCongruent(p, q, a, b, 1);
  }

  lemma {:induction false} OffsetTargetsCongruent(origin: Position, team: Team, a: seq<Piece>, b: seq<Piece>, offsets: seq<Offset>)
    requires SameLayout(a, b)
    ensures OffsetTargets(origin, team, a, offsets) == OffsetTargets(origin, team, b, offsets)
  {
    if offsets != [] {
      OffsetTargetsCongruent(origin, team, a, b, offsets[..|offsets| - 1]);
      OccupancyCongruent(a, b, Target(origin, offsets[|offsets| - 1]), team);
    }
  }

  lemma {:induction false} RayCongruent(origin: Position, d: Direction, team: Team, a: seq<Piece>, b: seq<Piece>, i: nat)
    requires SameLayout(a, b)
    ensures Ray(origin, d, team, a, i) == Ray(origin, d, team, b, i)
    decreases 8 - i
  {
    if i < 8 {
      RayCongruent(origin, d, team, a, b, i + 1);
      OccupancyCongruent(a, b, Step(origin, d, i), team);
    }
  }

  lemma {:induction false} SlideMovesCongruent(origin: Position, team: Team, a: seq<Piece>, b: seq<Piece>, dirs: seq<Direction>)
    requires SameLayout(a, b)
    ensures SlideMoves(origin, team, a, dirs) == SlideMoves(origin, team, b, dirs)
  {
    if dirs != [] {
      SlideMovesCongruent(origin, team, a, b, dirs[..|dirs| - 1]);
      RayCongruent(origin, dirs[|dirs| - 1], team, a, b, 1);
    }
  }
}
