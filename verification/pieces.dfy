/** Pieces as the engine spells them: a two-character code whose first character is the
    colour ('w' or 'b') and whose second is the kind ('P', 'N', 'B', 'R', 'Q', 'K'), and the
    code "--" for an empty square. */
module Pieces {

  datatype Color = White | Black

  datatype Kind = Pawn | Knight | Bishop | Rook | Queen | King

  /** One square of the board: `Empty` is the code "--". */
  datatype Cell = Empty | Piece(color: Color, kind: Kind)

  function Opponent(c: Color): (o: Color)
    ensures o != c
  {
    if c == White then Black else White
  }

  /** The colour whose moves are generated when `w_to_move` has the given value. */
  function SideToMove(whiteToMove: bool): (c: Color)
    ensures c == White <==> whiteToMove
  {
    if whiteToMove then White else Black
  }

  /** The second character of a piece code. */
  function KindLetter(k: Kind): (ch: char)
    ensures 'A' <= ch <= 'Z'
  {
    match k
    case Pawn => 'P'
    case Knight => 'N'
    case Bishop => 'B'
    case Rook => 'R'
    case Queen => 'Q'
    case King => 'K'
  }

  /** True of the second character of a piece's code when it is 'P'. */
  predicate IsPawn(x: Cell)
  {
    x.Piece? && x.kind == Pawn
  }
}
