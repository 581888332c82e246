/** One entry of the move log (Models/Move.ts) and its text. */
module Moves {
  import opened Types
  import opened Positions

  datatype Move = Move(team: Team, piece: PieceType, fromPosition: Position, toPosition: Position)
  {
    /** Move.clone: same team and piece, copies of both squares. */
    function Clone(): (m: Move)
      ensures m == this
    {
      Move(team, piece, Positions.Clone(fromPosition), Positions.Clone(toPosition))
    }
  }

  function DigitChar(d: int): char
    requires 0 <= d <= 9
  {
    ['0', '1', '2', '3', '4', '5', '6', '7', '8', '9'][d]
  }

  predicate IsDigitChar(c: char)
  {
    '0' as int <= c as int <= '9' as int
  }

  /** Decimal digits of a natural number, most significant first. */
  function NatToString(n: nat): (s: string)
    ensures |s| >= 1 && forall i :: 0 <= i < |s| ==> IsDigitChar(s[i])
    ensures n < 10 ==> s == [DigitChar(n)]
  {
    if n < 10 then [DigitChar(n)] else NatToString(n / 10) + [DigitChar(n % 10)]
  }

  /** How a number is written inside a template string: a minus sign for
      negative numbers, then the decimal digits. */
  function IntToString(n: int): (s: string)
  {
    if n < 0 then "-" + NatToString(-n) else NatToString(n)
  }

  /** Reads back a string of decimal digits. */
  function ParseDigits(s: string): nat
    requires forall i :: 0 <= i < |s| ==> IsDigitChar(s[i])
  {
    if s == [] then 0
    else
      assert IsDigitChar(s[|s| - 1]);
      10 * ParseDigits(s[..|s| - 1]) + ((s[|s| - 1] as int) - ('0' as int))
  }

  lemma {:induction false} NatToStringRoundTrip(n: nat)
    ensures ParseDigits(NatToString(n)) == n
  {
    var s := NatToString(n);
    if n >= 10 {
      NatToStringRoundTrip(n / 10);
      assert s[..|s| - 1] == NatToString(n / 10);
    }
  }

  /** Writing a number and reading it back gives the number. */
  lemma IntToStringRoundTrip(n: int)
    ensures IntToString(n)[0] == '-' <==> n < 0
    ensures n < 0 ==> ParseDigits(IntToString(n)[1..]) == -n
    ensures n >= 0 ==> ParseDigits(IntToString(n)) == n
  {
    NatToStringRoundTrip(Abs(n));
    if n < 0 {
      assert IntToString(n)[1..] == NatToString(-n);
    }
  }

  function TeamName(team: Team): string
  {
    if team == Black then "Black" else "White"
  }

  /** Move.toMessage. The text of a PieceType value is defined in a module
      that is not part of this model, so it is the parameter name. */
  function ToMessage(m: Move, name: PieceType -> string): (msg: string)
  {
    TeamName(m.team) + (" moved " + (name(m.piece) + Route(m)))
  }

  /** The part of the message after the piece name. */
  function Route(m: Move): string
  {
    " from " + IntToString(m.fromPosition.x) + ", " + IntToString(m.fromPosition.y)
    + " to " + IntToString(m.toPosition.x) + ", " + IntToString(m.toPosition.y) + "."
  }

  /** The message opens with "Black" exactly for the OPPONENT side and with
      "White" otherwise, followed by " moved " and the piece name. */
  lemma MessageNamesTeam(m: Move, name: PieceType -> string)
    ensures ToMessage(m, name)[..5] == (if m.team == Black then "Black" else "White")
    ensures ToMessage(m, name)[5..12] == " moved "
    ensures ToMessage(m, name)[12..12 + |name(m.piece)|] == name(m.piece)
  {
    var a, b, c, d := TeamName(m.team), " moved ", name(m.piece), Route(m);
    var msg := a + (b + (c + d));
    assert |a| == 5 && |b| == 7;
    assert msg[..5] == a;
    assert msg[5..] == b + (c + d);
    assert (b + (c + d))[..7] == b;
    assert msg[12..] == c + d;
    assert (c + d)[..|c|] == c;
  }

  /** For a move between squares of the board, the message ends with
      "from fx, fy to tx, ty." with one digit per coordinate, so the four
      coordinates can be read back from fixed places at its end. */
  lemma MessageEndsWithSquares(m: Move, name: PieceType -> string)
    requires OnBoard(m.fromPosition) && OnBoard(m.toPosition)
    ensures var msg := ToMessage(m, name);
      && |msg| == 12 + |name(m.piece)| + 19
      && msg[|msg| - 19..] == " from " + [DigitChar(m.fromPosition.x)] + ", " + [DigitChar(m.fromPosition.y)]
                              + " to " + [DigitChar(m.toPosition.x)] + ", " + [DigitChar(m.toPosition.y)] + "."
  {
    var a, b, c, d := TeamName(m.team), " moved ", name(m.piece), Route(m);
    var msg := a + (b + (c + d));
    assert |d| == 19;
    assert msg == (a + b + c) + d;
    assert msg[|msg| - 19..] == d;
  }
}
