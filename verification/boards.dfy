/** The 8x8 board of `GameState.board`: row 0 is black's back rank, row 7 white's,
    column 0 the a-file. */
module Boards {
  import opened Pieces

  predicate IsGrid(g: seq<seq<Cell>>)
  {
    |g| == 8 && forall r :: 0 <= r < 8 ==> |g[r]| == 8
  }

  type Board = g: seq<seq<Cell>> | IsGrid(g) witness seq(8, _ => seq(8, _ => Empty))

  /** `on_board`: both coordinates in range(0, 8). */
  predicate OnBoard(r: int, c: int)
  {
    0 <= r < 8 && 0 <= c < 8
  }

  function At(b: Board, r: int, c: int): Cell
    requires OnBoard(r, c)
  {
    b[r][c]
  }

  /** The assignment `board[r][c] = x`. */
  function Put(b: Board, r: int, c: int, x: Cell): (b': Board)
    requires OnBoard(r, c)
    ensures At(b', r, c) == x
    ensures forall r', c' :: OnBoard(r', c') && (r' != r || c' != c) ==> At(b', r', c') == At(b, r', c')
  {
    b[r := b[r][c := x]]
  }

  /** `is_empty`: the square holds "--". */
  predicate IsEmpty(b: Board, r: int, c: int)
    requires OnBoard(r, c)
  {
    At(b, r, c) == Empty
  }

  /** `team`: the square holds a piece of the colour whose moves are being generated. */
  predicate Team(b: Board, whiteToMove: bool, r: int, c: int)
    requires OnBoard(r, c)
  {
    At(b, r, c).Piece? && At(b, r, c).color == SideToMove(whiteToMove)
  }

  /** Two boards that agree on every square are the same board. */
  lemma Extensionality(a: Board, b: Board)
    requires forall r, c :: OnBoard(r, c) ==> At(a, r, c) == At(b, r, c)
    ensures a == b
  {
    forall r | 0 <= r < 8
      ensures a[r] == b[r]
    {
      forall c | 0 <= c < 8
        ensures a[r][c] == b[r][c]
      {
        assert At(a, r, c) == At(b, r, c);
      }
    }
  }

  /** A back rank: rook, knight, bishop, queen, king, bishop, knight, rook. The king
      stands on column 4 and nowhere else. */
  function BackRank(c: Color): (rank: seq<Cell>)
    ensures |rank| == 8
    ensures forall i :: 0 <= i < 8 ==> (rank[i] == Piece(c, King) <==> i == 4)
    ensures forall i :: 0 <= i < 8 ==> rank[i].Piece? && rank[i].color == c && rank[i].kind != Pawn
  {
    [Piece(c, Rook), Piece(c, Knight), Piece(c, Bishop), Piece(c, Queen),
     Piece(c, King), Piece(c, Bishop), Piece(c, Knight), Piece(c, Rook)]
  }

  /** The arrangement `GameState.__init__` starts from. */
  function InitialBoard(): (b: Board)
    ensures forall c :: 0 <= c < 8 ==> At(b, 0, c) == BackRank(Black)[c] && At(b, 7, c) == BackRank(White)[c]
    ensures forall c :: 0 <= c < 8 ==> At(b, 6, c) == Piece(White, Pawn) && At(b, 1, c) == Piece(Black, Pawn)
    ensures forall r, c :: 2 <= r < 6 && 0 <= c < 8 ==> IsEmpty(b, r, c)
  {
    [BackRank(Black), seq(8, _ => Piece(Black, Pawn))]
      + seq(4, _ => seq(8, _ => Empty))
      + [seq(8, _ => Piece(White, Pawn)), BackRank(White)]
  }
}
