/** The stages of Board.calculateAllMoves and Board.checkCurrentTeamMoves
    (Models/Board.ts), as functions of the piece list. The Board class runs
    them with loops and proves each loop computes the stage given here. */
module Calculation {
  import opened Types
  import opened Positions
  import opened Pieces
  import opened GeneralRules
  import opened KingRules
  import opened Layouts
  import opened MoveGeneration

  /** currentTeam: OPPONENT (Black) on an even turn count, OUR (White) on an
      odd one. Only whether the remainder is zero matters, so truncating and
      Euclidean remainders agree here. */
  function CurrentTeam(totalTurns: int): Team
  {
    if totalTurns % 2 == 0 then Black else White
  }

  /** The side to move changes with every turn, and turn 1 is White's. */
  lemma CurrentTeamAlternates(totalTurns: int)
    ensures CurrentTeam(totalTurns + 1) == CurrentTeam(totalTurns).Other()
    ensures CurrentTeam(1) == White && CurrentTeam(0) == Black
  {
  }

  // ---------------------------------------------------------------------
  // Stage 1: every piece gets the generator's moves.

  function Generated(ps: seq<Piece>): (r: seq<Piece>)
    ensures SameLayout(r, ps)
    ensures forall i :: 0 <= i < |r| ==> r[i].possibleMoves == ValidMoves(ps[i], ps)
  {
    seq(|ps|, i requires 0 <= i < |ps| => ps[i].(possibleMoves := ValidMoves(ps[i], ps)))
  }

  // ---------------------------------------------------------------------
  // Stage 2: the kings, in board order, get their castling squares appended.
  // Castling reads the other pieces' lists, so a king sees the lists as the
  // earlier kings left them.

  function WithCastling(ps: seq<Piece>, n: nat): (r: seq<Piece>)
    requires n <= |ps|
    ensures SameLayout(r, ps)
    ensures r[n..] == ps[n..]
  {
    if n == 0 then ps
    else
      var q := WithCastling(ps, n - 1);
      var king := q[n - 1];
      if king.IsKing() then q[n - 1 := king.(possibleMoves := king.possibleMoves + CastlingMoves(king, q))]
      else q
  }

  /** Castling only ever appends to a king's list: every other piece is left
      as it was, a king that has moved gains nothing, and a king keeps its
      generated moves in front of the castling squares it gains. */
  lemma {:induction false} WithCastlingEntries(ps: seq<Piece>, n: nat, i: nat)
    requires n <= |ps| && i < |ps|
    ensures var r := WithCastling(ps, n);
      && (!ps[i].IsKing() ==> r[i] == ps[i])
      && (ps[i].IsKing() && i < n ==>
            r[i] == ps[i].(possibleMoves := ps[i].possibleMoves + CastlingMoves(ps[i], WithCastling(ps, i))))
      && (ps[i].IsKing() && ps[i].hasMoved ==> r[i] == ps[i])
  {
    if n > 0 {
      WithCastlingEntries(ps, n - 1, i);
      if i == n - 1 {
        assert WithCastling(ps, n - 1)[i] == ps[i] by {
          assert WithCastling(ps, n - 1)[n - 1..] == ps[n - 1..];
          assert WithCastling(ps, n - 1)[n - 1..][0] == ps[n - 1..][0];
        }
      }
    }
  }

  // ---------------------------------------------------------------------
  // Stage 3: the legality filter.

  /** The pieces not standing on pos, in order (the filter that removes the
      occupant of the destination). */
  function RemoveAt(ps: seq<Piece>, pos: Position): (r: seq<Piece>)
    ensures |r| <= |ps|
    ensures forall p :: p in r <==> p in ps && p.position != pos
  {
    if ps == [] then []
    else
      var rest := RemoveAt(ps[..|ps| - 1], pos);
      var p := ps[|ps| - 1];
      assert ps == ps[..|ps| - 1] + [p];
      if !p.SamePosition(pos) then rest + [p] else rest
  }

  /** The index of the first piece on pos (Array.find), if any. */
  function FirstIndexAt(ps: seq<Piece>, pos: Position): (r: Option<nat>)
    ensures r.Some? ==> r.value < |ps| && ps[r.value].position == pos
                        && forall j :: 0 <= j < r.value ==> ps[j].position != pos
    ensures r.None? ==> forall j :: 0 <= j < |ps| ==> ps[j].position != pos
  {
    if ps == [] then None
    else if ps[0].SamePosition(pos) then Some(0)
    else match FirstIndexAt(ps[1..], pos)
      case None => None
      case Some(k) => Some(k + 1)
  }

  /** The simulated board: the destination's occupant removed and the first
      piece on the mover's square moved to the destination. When no piece is
      left on the mover's square the source would fail on a missing object;
      the board is then left as the removal made it. */
  function Simulated(ps: seq<Piece>, piece: Piece, move: Position): seq<Piece>
  {
    var rest := RemoveAt(ps, move);
    match FirstIndexAt(rest, piece.position)
    case None => rest
    case Some(k) => rest[k := rest[k].(position := move)]
  }

  /** The pieces not of team get freshly generated moves on the board. */
  function Recomputed(sim: seq<Piece>, team: Team): (r: seq<Piece>)
    ensures |r| == |sim|
    ensures forall i :: 0 <= i < |sim| ==>
      r[i] == if sim[i].team != team then sim[i].(possibleMoves := ValidMoves(sim[i], sim)) else sim[i]
  {
    seq(|sim|, i requires 0 <= i < |sim| =>
      if sim[i].team != team then sim[i].(possibleMoves := ValidMoves(sim[i], sim)) else sim[i])
  }

  /** The first king of team, if any. */
  function FindKing(ps: seq<Piece>, team: Team): (r: Option<Piece>)
    ensures r.Some? ==> r.value in ps && r.value.IsKing() && r.value.team == team
    ensures r.None? <==> forall p :: p in ps ==> !(p.IsKing() && p.team == team)
  {
    if ps == [] then None
    else if ps[0].IsKing() && ps[0].team == team then Some(ps[0])
    else
      var r := FindKing(ps[1..], team);
      assert forall p :: p in ps ==> p == ps[0] || p in ps[1..];
      r
  }

  /** FindKing answers the first king of team in list order. */
  lemma {:induction false} FindKingFirst(ps: seq<Piece>, team: Team, k: nat)
    requires k < |ps| && ps[k].IsKing() && ps[k].team == team
    requires forall j :: 0 <= j < k ==> !(ps[j].IsKing() && ps[j].team == team)
    ensures FindKing(ps, team) == Some(ps[k])
    decreases k
  {
    if k > 0 {
      FindKingFirst(ps[1..], team, k - 1);
    }
  }

  /** An enemy lists square among its moves; an enemy pawn's moves along its
      own file do not count. */
  predicate Attacks(enemy: Piece, square: Position)
  {
    exists m :: m in enemy.possibleMoves && SamePosition(m, square) && (enemy.IsPawn() ==> m.x != enemy.position.x)
  }

  /** The inCheck test. With no king of team on the board the source would
      fail on a missing object; the model answers "not attacked". */
  predicate KingAttacked(board: seq<Piece>, team: Team)
  {
    match FindKing(board, team)
    case None => false
    case Some(king) => exists i :: 0 <= i < |board| && board[i].team != team && Attacks(board[i], king.position)
  }

  /** Playing move with piece leaves the king of team attacked. */
  predicate LeavesKingAttacked(ps: seq<Piece>, piece: Piece, move: Position, team: Team)
  {
    KingAttacked(Recomputed(Simulated(ps, piece, move), team), team)
  }

  // The filter depends on where the pieces stand and not on their lists, so
  // it gives the same answers while checkCurrentTeamMoves rewrites them.

  lemma {:induction false} RemoveAtCongruent(a: seq<Piece>, b: seq<Piece>, pos: Position)
    requires SameLayout(a, b)
    ensures SameLayout(RemoveAt(a, pos), RemoveAt(b, pos))
  {
    if a != [] {
      var n := |a| - 1;
      SameLayoutPrefix(a, b, n);
      RemoveAtCongruent(a[..n], b[..n], pos);
      assert Stripped(a[n]) == Stripped(b[n]);
      if !a[n].SamePosition(pos) {
        SameLayoutAppend(RemoveAt(a[..n], pos), RemoveAt(b[..n], pos), a[n], b[n]);
      }
    }
  }

  lemma {:induction false} FirstIndexAtCongruent(a: seq<Piece>, b: seq<Piece>, pos: Position)
    requires SameLayout(a, b)
    ensures FirstIndexAt(a, pos) == FirstIndexAt(b, pos)
  {
    if a != [] {
      assert a[0].position == b[0].position by {
        assert Stripped(a[0]).position == Stripped(b[0]).position;
      }
      assert SameLayout(a[1..], b[1..]);
      FirstIndexAtCongruent(a[1..], b[1..], pos);
    }
  }

  lemma RelocateCongruent(x: seq<Piece>, y: seq<Piece>, k: nat, move: Position)
    requires SameLayout(x, y) && k < |x|
    ensures SameLayout(x[k := x[k].(position := move)], y[k := y[k].(position := move)])
  {
    var x', y' := x[k := x[k].(position := move)], y[k := y[k].(position := move)];
    forall i | 0 <= i < |x'| ensures Stripped(x'[i]) == Stripped(y'[i]) {
      if i == k {
        assert Stripped(x[k]) == Stripped(y[k]);
        assert Stripped(x'[k]) == Stripped(x[k]).(position := move);
        assert Stripped(y'[k]) == Stripped(y[k]).(position := move);
      } else {
        assert x'[i] == x[i] && y'[i] == y[i];
      }
    }
  }

  lemma SimulatedCongruent(a: seq<Piece>, b: seq<Piece>, p: Piece, q: Piece, move: Position)
    requires SameLayout(a, b) && Stripped(p) == Stripped(q)
    ensures SameLayout(Simulated(a, p, move), Simulated(b, q, move))
  {
    assert p.position == q.position by {
      assert Stripped(p).position == Stripped(q).position;
    }
    var ra, rb := RemoveAt(a, move), RemoveAt(b, move);
    RemoveAtCongruent(a, b, move);
    FirstIndexAtCongruent(ra, rb, p.position);
    var found := FirstIndexAt(ra, p.position);
    if found.Some? {
      RelocateCongruent(ra, rb, found.value, move);
    }
  }

  lemma {:induction false} FindKingCongruent(a: seq<Piece>, b: seq<Piece>, team: Team)
    requires SameLayout(a, b)
    ensures FindKing(a, team).Some? == FindKing(b, team).Some?
    ensures FindKing(a, team).Some? ==> FindKing(a, team).value.position == FindKing(b, team).value.position
  {
    if a != [] {
      assert a[0].position == b[0].position && a[0].kind == b[0].kind && a[0].team == b[0].team by {
        assert Stripped(a[0]).position == Stripped(b[0]).position;
        assert Stripped(a[0]).kind == Stripped(b[0]).kind && Stripped(a[0]).team == Stripped(b[0]).team;
      }
      assert SameLayout(a[1..], b[1..]);
      FindKingCongruent(a[1..], b[1..], team);
    }
  }

  lemma KingAttackedCongruent(a: seq<Piece>, b: seq<Piece>, team: Team)
    requires SameLayout(a, b)
    requires forall i :: 0 <= i < |a| && a[i].team != team ==> a[i] == b[i]
    ensures KingAttacked(a, team) == KingAttacked(b, team)
  {
    FindKingCongruent(a, b, team);
    forall i | 0 <= i < |a| ensures a[i].team == b[i].team {
      assert Stripped(a[i]).team == Stripped(b[i]).team;
    }
  }

  lemma RecomputedCongruent(a: seq<Piece>, b: seq<Piece>, team: Team)
    requires SameLayout(a, b)
    ensures SameLayout(Recomputed(a, team), Recomputed(b, team))
    ensures forall i :: 0 <= i < |a| && Recomputed(a, team)[i].team != team ==> Recomputed(a, team)[i] == Recomputed(b, team)[i]
  {
    var ra, rb := Recomputed(a, team), Recomputed(b, team);
    forall i | 0 <= i < |ra|
      ensures Stripped(ra[i]) == Stripped(rb[i])
      ensures ra[i].team != team ==> ra[i] == rb[i]
    {
      assert a[i].team == b[i].team by {
        assert Stripped(a[i]).team == Stripped(b[i]).team;
      }
      if a[i].team != team {
        ValidMovesCongruent(a[i], b[i], a, b);
        assert Stripped(ra[i]) == Stripped(a[i]);
        assert Stripped(rb[i]) == Stripped(b[i]);
      }
    }
  }

  lemma LeavesKingAttackedCongruent(a: seq<Piece>, b: seq<Piece>, p: Piece, q: Piece, move: Position, team: Team)
    requires SameLayout(a, b) && Stripped(p) == Stripped(q)
    ensures LeavesKingAttacked(a, p, move, team) == LeavesKingAttacked(b, q, move, team)
  {
    var sa, sb := Simulated(a, p, move), Simulated(b, q, move);
    SimulatedCongruent(a, b, p, q, move);
    RecomputedCongruent(sa, sb, team);
    KingAttackedCongruent(Recomputed(sa, team), Recomputed(sb, team), team);
  }

  /** The moves of piece that survive the filter, in their order. */
  function SafeMoves(ps: seq<Piece>, piece: Piece, moves: seq<Position>, team: Team): (r: seq<Position>)
    ensures |r| <= |moves|
  {
    if moves == [] then []
    else
      var rest := SafeMoves(ps, piece, moves[..|moves| - 1], team);
      var m := moves[|moves| - 1];
      if !LeavesKingAttacked(ps, piece, m, team) then rest + [m] else rest
  }

  /** A move survives the filter exactly when it is one of the piece's moves
      and does not leave the king attacked. */
  lemma SafeMovesMembership(ps: seq<Piece>, piece: Piece, moves: seq<Position>, team: Team, m: Position)
    ensures m in SafeMoves(ps, piece, moves, team) <==> m in moves && !LeavesKingAttacked(ps, piece, m, team)
  {
    var unsafe := move => LeavesKingAttacked(ps, piece, move, team);
    SafeMovesDropped(ps, piece, moves, team);
    DroppedMembership(moves, unsafe, m);
  }

  /** The moves that unsafe does not reject, in their order. */
  function Dropped(moves: seq<Position>, unsafe: Position -> bool): seq<Position>
  {
    if moves == [] then []
    else
      var rest := Dropped(moves[..|moves| - 1], unsafe);
      if unsafe(moves[|moves| - 1]) then rest else rest + [moves[|moves| - 1]]
  }

  lemma {:induction false} SafeMovesDropped(ps: seq<Piece>, piece: Piece, moves: seq<Position>, team: Team)
    ensures SafeMoves(ps, piece, moves, team) == Dropped(moves, move => LeavesKingAttacked(ps, piece, move, team))
  {
    if moves != [] {
      SafeMovesDropped(ps, piece, moves[..|moves| - 1], team);
    }
  }

  lemma {:induction false} DroppedMembership(moves: seq<Position>, unsafe: Position -> bool, m: Position)
    ensures m in Dropped(moves, unsafe) <==> m in moves && !unsafe(m)
  {
    if moves != [] {
      var n := |moves| - 1;
      DroppedMembership(moves[..n], unsafe, m);
      assert moves == moves[..n] + [moves[n]];
    }
  }

  /** One more move through the filter. */
  lemma SafeMovesStep(ps: seq<Piece>, piece: Piece, moves: seq<Position>, team: Team, j: nat)
    requires j < |moves|
    ensures SafeMoves(ps, piece, moves[..j + 1], team) ==
      SafeMoves(ps, piece, moves[..j], team) + (if LeavesKingAttacked(ps, piece, moves[j], team) then [] else [moves[j]])
  {
    assert moves[..j + 1][..j] == moves[..j];
  }

  lemma {:induction false} SafeMovesCongruent(a: seq<Piece>, b: seq<Piece>, p: Piece, q: Piece, moves: seq<Position>, team: Team)
    requires SameLayout(a, b) && Stripped(p) == Stripped(q)
    ensures SafeMoves(a, p, moves, team) == SafeMoves(b, q, moves, team)
  {
    if moves != [] {
      SafeMovesCongruent(a, b, p, q, moves[..|moves| - 1], team);
      LeavesKingAttackedCongruent(a, b, p, q, moves[|moves| - 1], team);
    }
  }

  /** checkCurrentTeamMoves: each piece of team keeps its safe moves. */
  function Checked(ps: seq<Piece>, team: Team): (r: seq<Piece>)
    ensures SameLayout(r, ps)
  {
    seq(|ps|, i requires 0 <= i < |ps| =>
      if ps[i].team == team then ps[i].(possibleMoves := SafeMoves(ps, ps[i], ps[i].possibleMoves, team)) else ps[i])
  }

  /** The filter only removes moves of the side to move: every other piece is
      left as it was, and a move of the side to move survives exactly when
      it does not leave that side's king attacked. */
  lemma CheckedMeaning(ps: seq<Piece>, team: Team, i: int, m: Position)
    requires 0 <= i < |ps|
    ensures ps[i].team != team ==> Checked(ps, team)[i] == ps[i]
    ensures ps[i].team == team ==>
      (m in Checked(ps, team)[i].possibleMoves <==> m in ps[i].possibleMoves && !LeavesKingAttacked(ps, ps[i], m, team))
    ensures |Checked(ps, team)[i].possibleMoves| <= |ps[i].possibleMoves|
  {
    SafeMovesMembership(ps, ps[i], ps[i].possibleMoves, team, m);
  }

  // ---------------------------------------------------------------------
  // Stage 4: the enemy moves are collected, then the idle side's lists are
  // emptied.

  /** flatMap over the pieces not of team. */
  function EnemyMoves(ps: seq<Piece>, team: Team): (r: seq<Position>)
    ensures forall m :: m in r <==> exists i :: 0 <= i < |ps| && ps[i].team != team && m in ps[i].possibleMoves
  {
    if ps == [] then []
    else
      var rest := EnemyMoves(ps[..|ps| - 1], team);
      var p := ps[|ps| - 1];
      assert forall i :: 0 <= i < |ps| - 1 ==> ps[..|ps| - 1][i] == ps[i];
      if p.team != team then rest + p.possibleMoves else rest
  }

  function ClearIdle(ps: seq<Piece>, team: Team): (r: seq<Piece>)
    ensures SameLayout(r, ps)
    ensures forall i :: 0 <= i < |r| ==> r[i] == if ps[i].team != team then ps[i].(possibleMoves := []) else ps[i]
  {
    seq(|ps|, i requires 0 <= i < |ps| => if ps[i].team != team then ps[i].(possibleMoves := []) else ps[i])
  }

  /** The four stages in order; the turn count selects the side to move. */
  function Castled(ps: seq<Piece>): seq<Piece>
  {
    WithCastling(Generated(ps), |ps|)
  }

  function Calculated(ps: seq<Piece>, totalTurns: int): seq<Piece>
  {
    var team := CurrentTeam(totalTurns);
    ClearIdle(Checked(Castled(ps), team), team)
  }

  /** The side to move has no move left. */
  predicate NoMoves(ps: seq<Piece>, team: Team)
  {
    forall i :: 0 <= i < |ps| && ps[i].team == team ==> ps[i].possibleMoves == []
  }

  /** The stages of calculateAllMoves change move lists only. */
  lemma CalculatedLayout(ps: seq<Piece>, totalTurns: int)
    ensures SameLayout(Calculated(ps, totalTurns), ps)
  {
    var team := CurrentTeam(totalTurns);
    var g := Generated(ps);
    var w := Castled(ps);
    SameLayoutTransitive(Checked(w, team), w, g);
    SameLayoutTransitive(Checked(w, team), g, ps);
    SameLayoutTransitive(Calculated(ps, totalTurns), Checked(w, team), ps);
  }

  /** What calculateAllMoves leaves: the pieces stand where they stood, the
      idle side has no moves, and each move of the side to move is a
      generated (or, for a king, castling) move that does not leave its king
      attacked. */
  lemma CalculatedMeaning(ps: seq<Piece>, totalTurns: int, i: int, m: Position)
    requires 0 <= i < |ps|
    ensures SameLayout(Calculated(ps, totalTurns), ps)
    ensures var team := CurrentTeam(totalTurns);
      var c := Calculated(ps, totalTurns);
      && (ps[i].team != team ==> c[i].possibleMoves == [])
      && (ps[i].team == team ==>
            (m in c[i].possibleMoves <==>
               m in Castled(ps)[i].possibleMoves && !LeavesKingAttacked(Castled(ps), Castled(ps)[i], m, team)))
  {
    var team := CurrentTeam(totalTurns);
    var w := Castled(ps);
    CalculatedLayout(ps, totalTurns);
    assert Stripped(w[i]).team == Stripped(ps[i]).team;
    CheckedMeaning(w, team, i, m);
  }

  /** Every generated move of a piece that is not a king, and every move a
      king keeps before its castling squares, avoids the mover's own team. */
  lemma CastledNoFriend(ps: seq<Piece>, i: int, m: Position)
    requires 0 <= i < |ps|
    requires !ps[i].IsKing() || ps[i].hasMoved
    requires m in Castled(ps)[i].possibleMoves
    ensures TileIsEmptyOrOccupiedByOpponent(m, ps, ps[i].team) && m != ps[i].position
  {
    var g := Generated(ps);
    WithCastlingEntries(g, |ps|, i);
    assert Stripped(g[i]) == Stripped(ps[i]);
    assert g[i].IsKing() == ps[i].IsKing() && g[i].hasMoved == ps[i].hasMoved by {
      assert Stripped(g[i]).kind == Stripped(ps[i]).kind && Stripped(g[i]).hasMoved == Stripped(ps[i]).hasMoved;
    }
    ValidMovesNoFriend(ps[i], ps, m);
  }

  // ---------------------------------------------------------------------
  // One step of each of Board's loops: the list is the stage's result up to
  // index i and untouched from there on.

  /** The two ends of a pass that rewrites a list entry by entry. */
  lemma SpliceEnds(r: seq<Piece>, ps: seq<Piece>)
    requires |r| == |ps|
    ensures r[..0] + ps[0..] == ps
    ensures r[..|r|] + ps[|r|..] == r
  {
    assert r[..0] + ps[0..] == ps[0..];
    assert r[..|r|] == r;
  }

  /** A list that agrees with r before i and with ps from i on, where r has
      the layout of ps, has that layout too. */
  lemma SplicedLayout(r: seq<Piece>, ps: seq<Piece>, i: nat)
    requires SameLayout(r, ps) && i <= |ps|
    ensures SameLayout(r[..i] + ps[i..], ps)
  {
    var cur := r[..i] + ps[i..];
    forall j | 0 <= j < |cur| ensures Stripped(cur[j]) == Stripped(ps[j]) {
      if j < i {
        assert cur[j] == r[j];
      } else {
        assert cur[j] == ps[j];
      }
    }
  }

  lemma GeneratedStep(ps: seq<Piece>, cur: seq<Piece>, i: nat)
    requires i < |ps| && cur == Generated(ps)[..i] + ps[i..]
    ensures SameLayout(cur, ps) && |cur| == |ps| && cur[i] == ps[i]
    ensures ValidMoves(cur[i], cur) == ValidMoves(ps[i], ps)
    ensures cur[i := cur[i].(possibleMoves := ValidMoves(ps[i], ps))] == Generated(ps)[..i + 1] + ps[i + 1..]
  {
    SplicedLayout(Generated(ps), ps, i);
    assert cur[i] == ps[i];
    ValidMovesCongruent(cur[i], ps[i], cur, ps);
  }

  lemma RecomputedStep(sim: seq<Piece>, team: Team, cur: seq<Piece>, i: nat)
    requires i < |sim| && cur == Recomputed(sim, team)[..i] + sim[i..]
    ensures |cur| == |sim| && cur[i] == sim[i]
    ensures sim[i].team != team ==>
      cur[i := cur[i].(possibleMoves := ValidMoves(cur[i], cur))] == Recomputed(sim, team)[..i + 1] + sim[i + 1..]
    ensures sim[i].team == team ==> cur == Recomputed(sim, team)[..i + 1] + sim[i + 1..]
  {
    var r := Recomputed(sim, team);
    assert SameLayout(r, sim) by {
      forall j | 0 <= j < |r| ensures Stripped(r[j]) == Stripped(sim[j]) {
      }
    }
    SplicedLayout(r, sim, i);
    assert cur[i] == sim[i];
    if sim[i].team != team {
      ValidMovesCongruent(cur[i], sim[i], cur, sim);
      SpliceStep(r, sim, i, cur[i].(possibleMoves := ValidMoves(cur[i], cur)));
    } else {
      SpliceStep(r, sim, i, cur[i]);
      assert cur[i := cur[i]] == cur;
    }
  }

  /** Writing entry i of the spliced list continues the splice. */
  lemma SpliceStep(r: seq<Piece>, ps: seq<Piece>, i: nat, v: Piece)
    requires |r| == |ps| && i < |ps| && v == r[i]
    ensures (r[..i] + ps[i..])[i := v] == r[..i + 1] + ps[i + 1..]
  {
    var next := (r[..i] + ps[i..])[i := v];
    var target := r[..i + 1] + ps[i + 1..];
    forall j | 0 <= j < |next| ensures next[j] == target[j] {
      if j < i {
        assert next[j] == r[j] == target[j];
      } else if j > i {
        assert next[j] == ps[j] == target[j];
      }
    }
    assert next == target;
  }

  lemma ClearIdleStep(ps: seq<Piece>, team: Team, cur: seq<Piece>, i: nat)
    requires i < |ps| && cur == ClearIdle(ps, team)[..i] + ps[i..]
    ensures |cur| == |ps| && cur[i] == ps[i]
    ensures ps[i].team != team ==> cur[i := cur[i].(possibleMoves := [])] == ClearIdle(ps, team)[..i + 1] + ps[i + 1..]
    ensures ps[i].team == team ==> cur == ClearIdle(ps, team)[..i + 1] + ps[i + 1..]
  {
  }

  lemma CheckedStep(ps: seq<Piece>, team: Team, cur: seq<Piece>, i: nat, kept: seq<Position>)
    requires i < |ps| && cur == Checked(ps, team)[..i] + ps[i..]
    requires ps[i].team == team ==> kept == SafeMoves(cur, cur[i], cur[i].possibleMoves, team)
    ensures |cur| == |ps| && cur[i] == ps[i]
    ensures ps[i].team == team ==> cur[i := cur[i].(possibleMoves := kept)] == Checked(ps, team)[..i + 1] + ps[i + 1..]
    ensures ps[i].team != team ==> cur == Checked(ps, team)[..i + 1] + ps[i + 1..]
  {
    var c := Checked(ps, team);
    SplicedLayout(c, ps, i);
    assert cur[i] == ps[i];
    var target := c[..i + 1] + ps[i + 1..];
    var next := if ps[i].team == team then cur[i := cur[i].(possibleMoves := kept)] else cur;
    if ps[i].team == team {
      SafeMovesCongruent(cur, ps, cur[i], ps[i], ps[i].possibleMoves, team);
    }
    assert next[i] == c[i];
    forall j | 0 <= j < |next| ensures next[j] == target[j] {
      if j < i {
        assert next[j] == c[j] == target[j];
      } else if j > i {
        assert next[j] == ps[j] == target[j];
      }
    }
    assert next == target;
  }

  lemma CastlingStep(ps: seq<Piece>, cur: seq<Piece>, i: nat)
    requires i < |ps| && cur == WithCastling(ps, i)
    ensures |cur| == |ps|
    ensures cur[i].IsKing() ==>
      cur[i := cur[i].(possibleMoves := cur[i].possibleMoves + CastlingMoves(cur[i], cur))] == WithCastling(ps, i + 1)
    ensures !cur[i].IsKing() ==> cur == WithCastling(ps, i + 1)
  {
  }

  lemma EnemyMovesStep(ps: seq<Piece>, team: Team, i: nat)
    requires i < |ps|
    ensures EnemyMoves(ps[..i + 1], team) ==
      EnemyMoves(ps[..i], team) + (if ps[i].team != team then ps[i].possibleMoves else [])
  {
    assert ps[..i + 1][..i] == ps[..i];
  }
}
