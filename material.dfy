/** The material-draw rule of Board.checkForDraw (Models/Board.ts). */
module Material {
  import opened Types
  import opened Pieces

  /** How many pieces of team the list holds. */
  function CountTeam(ps: seq<Piece>, team: Team): (n: nat)
    ensures n <= |ps|
  {
    if ps == [] then 0
    else CountTeam(ps[..|ps| - 1], team) + (if ps[|ps| - 1].team == team then 1 else 0)
  }

  /** How many kings, knights and bishops of team. */
  function CountMinor(ps: seq<Piece>, team: Team): (n: nat)
    ensures n <= CountTeam(ps, team)
  {
    if ps == [] then 0
    else
      var p := ps[|ps| - 1];
      CountMinor(ps[..|ps| - 1], team) + (if p.team == team && (p.IsKing() || p.IsKnight() || p.IsBishop()) then 1 else 0)
  }

  /** How many knights of team. */
  function CountKnights(ps: seq<Piece>, team: Team): (n: nat)
    ensures n <= CountMinor(ps, team)
  {
    if ps == [] then 0
    else
      var p := ps[|ps| - 1];
      CountKnights(ps[..|ps| - 1], team) + (if p.team == team && p.IsKnight() then 1 else 0)
  }

  /** ourDraw / oppDraw: the side has a single piece, or exactly two pieces
      that are kings, knights or bishops (whatever else it has). */
  predicate SideDraw(ps: seq<Piece>, team: Team)
  {
    CountTeam(ps, team) == 1 || CountMinor(ps, team) == 2
  }

  /** Three pieces of which two are knights, against a single piece. */
  predicate TwoKnightsDraw(ps: seq<Piece>, strong: Team)
  {
    CountTeam(ps, strong) == 3 && CountKnights(ps, strong) == 2 && CountTeam(ps, strong.Other()) == 1
  }

  /** The three conditions of checkForDraw, in the source's order. */
  predicate MaterialDraw(ps: seq<Piece>)
  {
    (SideDraw(ps, White) && SideDraw(ps, Black)) || TwoKnightsDraw(ps, White) || TwoKnightsDraw(ps, Black)
  }

  /** Every piece with its team exchanged. */
  function SwapTeams(ps: seq<Piece>): (r: seq<Piece>)
    ensures |r| == |ps|
    ensures forall i :: 0 <= i < |ps| ==> r[i] == ps[i].(team := ps[i].team.Other())
  {
    seq(|ps|, i requires 0 <= i < |ps| => ps[i].(team := ps[i].team.Other()))
  }

  /** Exchanging the teams exchanges the counts. */
  lemma {:induction false} SwapTeamsCounts(ps: seq<Piece>, team: Team)
    ensures CountTeam(SwapTeams(ps), team.Other()) == CountTeam(ps, team)
    ensures CountMinor(SwapTeams(ps), team.Other()) == CountMinor(ps, team)
    ensures CountKnights(SwapTeams(ps), team.Other()) == CountKnights(ps, team)
  {
    if ps != [] {
      var front := ps[..|ps| - 1];
      SwapTeamsCounts(front, team);
      assert SwapTeams(ps)[..|ps| - 1] == SwapTeams(front);
      assert team.Other().Other() == team;
    }
  }

  /** The rule does not favour a side: exchanging the teams of every piece
      does not change whether the position is a draw. */
  lemma MaterialDrawSymmetric(ps: seq<Piece>)
    ensures MaterialDraw(SwapTeams(ps)) == MaterialDraw(ps)
  {
    SwapTeamsCounts(ps, White);
    SwapTeamsCounts(ps, Black);
  }

  /** Two lone pieces (in a game, the two kings) are a draw. */
  lemma LoneKingsDraw(ps: seq<Piece>)
    requires CountTeam(ps, White) == 1 && CountTeam(ps, Black) == 1
    ensures MaterialDraw(ps)
  {
  }

  /** A side with two kings, knights or bishops counts as drawn whatever other
      pieces it still has: a king, a bishop and a queen against a king is a
      draw by this rule. */
  lemma MinorPairIgnoresOtherPieces(ps: seq<Piece>)
    requires CountMinor(ps, White) == 2 && CountTeam(ps, Black) == 1
    ensures MaterialDraw(ps)
  {
  }
}
