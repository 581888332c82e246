/** The projection of a piece that makes up the repetition key
    (Models/SimplifiedPiece.ts): square, kind, team and possible moves, but
    neither hasMoved nor the en-passant flag. */
module SimplifiedPieces {
  import opened Types
  import opened Positions
  import opened Pieces

  datatype SimplifiedPiece = SimplifiedPiece(position: Position, kind: PieceType, team: Team,
                                             possibleMoves: seq<Position>)

  /** The SimplifiedPiece constructor: copies of the square and of every
      possible move, with the same kind and team. */
  function Simplify(p: Piece): (s: SimplifiedPiece)
    ensures s.position == p.position && s.kind == p.kind && s.team == p.team
    ensures s.possibleMoves == p.possibleMoves
  {
    SimplifiedPiece(Clone(p.position), p.kind, p.team, CloneAll(p.possibleMoves))
  }

  /** Two pieces simplify to the same value exactly when they agree on
      everything except hasMoved and the en-passant flag. */
  lemma SimplifyForgetsFlags(p: Piece, q: Piece)
    ensures Simplify(p) == Simplify(q) <==> p.(hasMoved := q.hasMoved, enPassant := q.enPassant) == q
  {
  }

  /** The repetition key of a piece list: its pieces simplified, in order. */
  function Key(pieces: seq<Piece>): (k: seq<SimplifiedPiece>)
    ensures |k| == |pieces|
    ensures forall i :: 0 <= i < |pieces| ==> k[i] == Simplify(pieces[i])
  {
    seq(|pieces|, i requires 0 <= i < |pieces| => Simplify(pieces[i]))
  }

  /** Two piece lists have the same key exactly when they agree, piece by
      piece, on everything but the two flags. */
  lemma KeyDeterminesLayout(a: seq<Piece>, b: seq<Piece>)
    ensures Key(a) == Key(b) <==>
      (|a| == |b| && forall i :: 0 <= i < |a| ==> a[i].(hasMoved := b[i].hasMoved, enPassant := b[i].enPassant) == b[i])
  {
    if |a| == |b| && forall i :: 0 <= i < |a| ==> a[i].(hasMoved := b[i].hasMoved, enPassant := b[i].enPassant) == b[i] {
      forall i | 0 <= i < |a| ensures Key(a)[i] == Key(b)[i] {
        SimplifyForgetsFlags(a[i], b[i]);
      }
    }
    if Key(a) == Key(b) {
      forall i | 0 <= i < |a| ensures a[i].(hasMoved := b[i].hasMoved, enPassant := b[i].enPassant) == b[i] {
        assert Key(a)[i] == Key(b)[i];
        SimplifyForgetsFlags(a[i], b[i]);
      }
    }
  }
}
