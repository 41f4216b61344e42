/** The `Move` class and the rank/file tables at the top of gamestate.py. */
module Moves {
  import opened Pieces
  import opened Boards

  /** A move as `Move.__init__` records it. Its fields are fixed when it is built, from the
      board as it stood then; nothing recomputes them later. */
  datatype Move = Move(
    startRow: int, startCol: int, targetRow: int, targetCol: int,
    pieceMoved: Cell, pieceCaptured: Cell,
    isPawnPromotion: bool, isEp: bool, isCastle: bool)
  {
    /** `moveID`: the four coordinates read as decimal digits. */
    function MoveID(): int
    {
      startRow * 1000 + startCol * 100 + targetRow * 10 + targetCol
    }

    predicate Start(r: int, c: int)
    {
      startRow == r && startCol == c
    }

    predicate Target(r: int, c: int)
    {
      targetRow == r && targetCol == c
    }

    /** All four coordinates lie on the board. */
    predicate OnBoardMove()
    {
      OnBoard(startRow, startCol) && OnBoard(targetRow, targetCol)
    }
  }

  /** The row a pawn of colour `c` promotes on. */
  function FarRank(c: Color): int
  {
    if c == White then 0 else 7
  }

  /** `Move(start_sq, target_sq, board, is_ep, is_castle)`. */
  function NewMove(sr: int, sc: int, tr: int, tc: int, b: Board, isEp: bool, isCastle: bool): (m: Move)
    requires OnBoard(sr, sc) && OnBoard(tr, tc)
    ensures m.Start(sr, sc) && m.Target(tr, tc)
    ensures m.pieceMoved == At(b, sr, sc)
    ensures m.isEp == isEp && m.isCastle == isCastle
    ensures m.isPawnPromotion <==> IsPawn(m.pieceMoved) && tr == FarRank(m.pieceMoved.color)
    ensures !isEp ==> m.pieceCaptured == At(b, tr, tc)
    ensures isEp && IsPawn(m.pieceMoved) ==> m.pieceCaptured == Piece(Opponent(m.pieceMoved.color), Pawn)
  {
    var moved := At(b, sr, sc);
    var captured :=
      if isEp then (if moved == Piece(Black, Pawn) then Piece(White, Pawn) else Piece(Black, Pawn))
      else At(b, tr, tc);
    var promotion := (moved == Piece(White, Pawn) && tr == 0) || (moved == Piece(Black, Pawn) && tr == 7);
    Move(sr, sc, tr, tc, moved, captured, promotion, isEp, isCastle)
  }

  /** `Move.__eq__`: two moves are equal when their `moveID`s are. */
  predicate SameMove(a: Move, b: Move)
  {
    a.MoveID() == b.MoveID()
  }

  /** `moveID` is injective on board coordinates, so `__eq__` compares exactly the start
      and target squares. */
  lemma SameMoveIff(a: Move, b: Move)
    requires a.OnBoardMove() && b.OnBoardMove()
    ensures SameMove(a, b) <==>
      a.startRow == b.startRow && a.startCol == b.startCol &&
      a.targetRow == b.targetRow && a.targetCol == b.targetCol
  {
    if SameMove(a, b) {
      var dsr, dsc := a.startRow - b.startRow, a.startCol - b.startCol;
      var dtr, dtc := a.targetRow - b.targetRow, a.targetCol - b.targetCol;
      var high := dsr * 100 + dsc * 10 + dtr;
      assert 10 * high + dtc == 0;
      assert high == 0;
      var mid := dsr * 10 + dsc;
      assert 10 * mid + dtr == 0;
      assert mid == 0;
    }
  }

  /** `ranks_to_rows`. */
  const RanksToRows: map<char, int> :=
    map['1' := 7, '2' := 6, '3' := 5, '4' := 4, '5' := 3, '6' := 2, '7' := 1, '8' := 0]

  /** `rows_to_ranks`, the inversion of `ranks_to_rows`. */
  const RowsToRanks: map<int, char> :=
    map[7 := '1', 6 := '2', 5 := '3', 4 := '4', 3 := '5', 2 := '6', 1 := '7', 0 := '8']

  /** `files_to_cols`. */
  const FilesToCols: map<char, int> :=
    map['a' := 0, 'b' := 1, 'c' := 2, 'd' := 3, 'e' := 4, 'f' := 5, 'g' := 6, 'h' := 7]

  /** `cols_to_files`, the inversion of `files_to_cols`. */
  const ColsToFiles: map<int, char> :=
    map[0 := 'a', 1 := 'b', 2 := 'c', 3 := 'd', 4 := 'e', 5 := 'f', 6 := 'g', 7 := 'h']

  /** The row tables are mutual inverses and cover exactly the board's eight rows. */
  lemma RowTablesAreInverse()
    ensures forall k :: k in RanksToRows ==> RanksToRows[k] in RowsToRanks && RowsToRanks[RanksToRows[k]] == k
    ensures forall r :: r in RowsToRanks ==> RowsToRanks[r] in RanksToRows && RanksToRows[RowsToRanks[r]] == r
    ensures forall r :: r in RowsToRanks <==> 0 <= r < 8
  {
    forall k | k in RanksToRows
      ensures RanksToRows[k] in RowsToRanks && RowsToRanks[RanksToRows[k]] == k
    {
    }
  }

  /** The column tables are mutual inverses and cover exactly the board's eight columns. */
  lemma ColumnTablesAreInverse()
    ensures forall k :: k in FilesToCols ==> FilesToCols[k] in ColsToFiles && ColsToFiles[FilesToCols[k]] == k
    ensures forall c :: c in ColsToFiles ==> ColsToFiles[c] in FilesToCols && FilesToCols[ColsToFiles[c]] == c
    ensures forall c :: c in ColsToFiles <==> 0 <= c < 8
  {
    forall k | k in FilesToCols
      ensures FilesToCols[k] in ColsToFiles && ColsToFiles[FilesToCols[k]] == k
    {
    }
  }

  /** `Move.convert(r, c)`: the algebraic name of a square, file letter then rank digit. */
  function Convert(r: int, c: int): (s: string)
    requires OnBoard(r, c)
    ensures |s| == 2 && 'a' <= s[0] <= 'h' && '1' <= s[1] <= '8'
    ensures s[1] in RanksToRows && s[0] in FilesToCols
    ensures RanksToRows[s[1]] == r && FilesToCols[s[0]] == c
  {
    [ColsToFiles[c], RowsToRanks[r]]
  }

  /** `Move.unconvert(r, c)`: a rank character and a file character back to (row, col). */
  function Unconvert(rank: char, file: char): (sq: (int, int))
    requires rank in RanksToRows && file in FilesToCols
    ensures OnBoard(sq.0, sq.1)
    ensures Convert(sq.0, sq.1) == [file, rank]
  {
    RowTablesAreInverse();
    ColumnTablesAreInverse();
    (RanksToRows[rank], FilesToCols[file])
  }

  /** `Move.chess_notation()`: the start square's name followed by the target square's. The
      four characters read back, through `unconvert`, to the move's four coordinates. */
  function ChessNotation(m: Move): (s: string)
    requires m.OnBoardMove()
    ensures |s| == 4
    ensures s[1] in RanksToRows && s[0] in FilesToCols && s[3] in RanksToRows && s[2] in FilesToCols
    ensures Unconvert(s[1], s[0]) == (m.startRow, m.startCol)
    ensures Unconvert(s[3], s[2]) == (m.targetRow, m.targetCol)
  {
    Convert(m.startRow, m.startCol) + Convert(m.targetRow, m.targetCol)
  }

  /** Two moves are written alike exactly when `__eq__` calls them equal. */
  lemma NotationMatchesEquality(a: Move, b: Move)
    requires a.OnBoardMove() && b.OnBoardMove()
    ensures ChessNotation(a) == ChessNotation(b) <==> SameMove(a, b)
  {
    SameMoveIff(a, b);
  }

  /** Unconverting a converted square gives the square back. */
  lemma UnconvertConvert(r: int, c: int)
    requires OnBoard(r, c)
    ensures Unconvert(Convert(r, c)[1], Convert(r, c)[0]) == (r, c)
  {
  }
}
