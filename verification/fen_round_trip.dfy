/** The FEN reader undoes the FEN writer: `parse` gives back the board `piece_placement`
    wrote, and `turn`, `castle`, `halfmove_clock` and `fullmove_number` give back the values
    `fen_generator` was called with. The en-passant field names the engine's en-passant
    square. */
module FenRoundTrip {
  import opened Options
  import opened Pieces
  import opened Boards
  import opened Moves
  import opened Generator
  import opened GameStates
  import opened Strings
  import opened FenWriter
  import opened FenParser

  // ---------------------------------------------------------------------------------------
  // The placement field

  /** The character an expanded rank holds for a square: a space for an empty one, the
      letter for a piece. */
  function Shown(x: Cell): char
  {
    if x == Empty then ' ' else PieceLetter(x.color, x.kind)
  }

  function ShownRow(row: seq<Cell>): string
  {
    seq(|row|, i requires 0 <= i < |row| => Shown(row[i]))
  }

  /** A written piece letter is one `parse_rank` keeps, and `parse` turns it back into the
      piece. */
  lemma PieceLetterReadsBack(color: Color, kind: Kind)
    ensures IsPieceChar(PieceLetter(color, kind)) && CellOf(PieceLetter(color, kind)) == Piece(color, kind)
  {
    var l := PieceLetter(color, kind);
    match kind
    case Pawn =>
    case Knight =>
    case Bishop =>
    case Rook =>
    case Queen =>
    case King =>
  }

  lemma ShownReadsBack(x: Cell)
    ensures (IsPieceChar(Shown(x)) || Shown(x) == ' ') && CellOf(Shown(x)) == x
  {
    if x.Piece? {
      PieceLetterReadsBack(x.color, x.kind);
    }
  }

  function Spaces(k: nat): string
  {
    seq(k, _ => ' ')
  }

  /** The digit for a run of at most nine empty squares expands back into that many
      spaces. */
  lemma RunReadsBack(k: nat)
    requires k <= 9
    ensures ParseRank(Run(k)) == Spaces(k)
  {
    if k > 0 {
      var d := DigitChar(k);
      assert Run(k) == [d];
      assert [d][1..] == [];
      assert ParseRank([d]) == Expand(d) + ParseRank([]);
    }
  }

  lemma LetterReadsBack(l: char)
    requires IsPieceChar(l)
    ensures ParseRank([l]) == [l]
  {
    assert [l][1..] == [];
  }

  /** Expanding a rank's text gives a space per empty square and the letter of each piece,
      after the `k` empty squares already pending. */
  lemma {:induction false} RankTextReadsBack(row: seq<Cell>, k: nat)
    requires k + |row| <= 9
    decreases |row|
    ensures ParseRank(RankText(row, k)) == Spaces(k) + ShownRow(row)
  {
    if row == [] {
      RunReadsBack(k);
      assert Spaces(k) + ShownRow(row) == Spaces(k);
    } else if row[0] == Empty {
      RankTextReadsBack(row[1..], k + 1);
      EmptyStep(row, k);
    } else {
      RankTextReadsBack(row[1..], 0);
      PieceStep(row, k);
    }
  }

  lemma EmptyStep(row: seq<Cell>, k: nat)
    requires row != [] && row[0] == Empty
    requires ParseRank(RankText(row[1..], k + 1)) == Spaces(k + 1) + ShownRow(row[1..])
    ensures ParseRank(RankText(row, k)) == Spaces(k) + ShownRow(row)
  {
    ShownRowCons(row);
    assert Spaces(k + 1) == Spaces(k) + [' '];
  }

  lemma PieceStep(row: seq<Cell>, k: nat)
    requires row != [] && row[0].Piece? && k <= 9
    requires ParseRank(RankText(row[1..], 0)) == ShownRow(row[1..])
    ensures ParseRank(RankText(row, k)) == Spaces(k) + ShownRow(row)
  {
    PieceLetterReadsBack(row[0].color, row[0].kind);
    ShownRowCons(row);
    RunReadsBack(k);
    ParseAroundLetter(Run(k), PieceLetter(row[0].color, row[0].kind), RankText(row[1..], 0));
  }

  lemma ShownRowCons(row: seq<Cell>)
    requires row != []
    ensures ShownRow(row) == [Shown(row[0])] + ShownRow(row[1..])
  {
  }

  /** A piece letter between two stretches of a rank stays where it is. */
  lemma ParseAroundLetter(a: string, l: char, b: string)
    requires IsPieceChar(l)
    ensures ParseRank(a + [l] + b) == ParseRank(a) + ([l] + ParseRank(b))
  {
    LetterReadsBack(l);
    ParseRankAppend(a + [l], b);
    ParseRankAppend(a, [l]);
  }

  /** Each written rank stands for exactly eight squares: its digits and letters add up to
      eight, and its runs are well formed. */
  lemma RankFieldShape(row: seq<Cell>)
    requires |row| == 8
    ensures ParseRank(RankField(row)) == ShownRow(row)
    ensures |ParseRank(RankField(row))| == 8
    ensures RunsWellFormed(RankField(row))
    ensures '/' !in RankField(row) && ' ' !in RankField(row)
  {
    RankTextReadsBack(row, 0);
    assert Spaces(0) + ShownRow(row) == ShownRow(row);
    RankTextDigits(row, 0);
    RankTextLetters(row, 0);
  }

  /** A placement field holds eight ranks, so seven '/' separators. */
  lemma PlacementShape(board: Board)
    ensures Count(PlacementField(board), '/') == 7
    ensures SplitOn(PlacementField(board), '/') == RankFields(board)
  {
    var ranks := RankFields(board);
    forall i | 0 <= i < 8
      ensures '/' !in ranks[i]
    {
      RankFieldShape(board[i]);
    }
    SplitJoin(ranks, '/');
  }

  /** The first piece of a split is the text before the first separator. */
  lemma FirstPiece(a: string, b: string, ch: char)
    requires ch !in a && (b == [] || b[0] == ch)
    ensures SplitOn(a + b, ch)[0] == a
  {
    var s := a + b;
    if ch in s {
      assert b != [] && s[|a|] == ch;
      assert forall k :: 0 <= k < |a| ==> s[k] == a[k];
      assert Find(s, ch, 0) == |a|;
      assert s[..|a|] == a;
    } else {
      assert b == [] && s == a;
    }
  }

  /** `parse` reads back the board `piece_placement` wrote, whatever follows the placement
      field after a space. */
  lemma PlacementRoundTrip(board: Board, rest: string)
    requires rest == [] || rest[0] == ' '
    ensures Parse(PlacementField(board) + rest) == Some(board)
  {
    var fen := PlacementField(board) + rest;
    FirstPiece(PlacementField(board), rest, ' ');
    PlacementShape(board);
    var ranks := Ranks(fen);
    assert ranks == RankFields(board);
    forall i | 0 <= i < 8
      ensures ParseRank(ranks[i]) == ShownRow(board[i])
    {
      RankFieldShape(board[i]);
    }
    var r := Parse(fen);
    assert r.Some?;
    forall row, col | OnBoard(row, col)
      ensures At(r.value, row, col) == At(board, row, col)
    {
      ShownReadsBack(board[row][col]);
    }
    Extensionality(r.value, board);
  }

  // ---------------------------------------------------------------------------------------
  // The other fields

  /** A space after a prefix holding `n - 1` spaces is the `n`-th one. */
  lemma NthSpace(s: string, pre: string, n: int)
    requires n >= 1 && Count(pre, ' ') == n - 1
    requires |pre| < |s| && s[..|pre|] == pre && s[|pre|] == ' '
    ensures FindNth(s, ' ', n) == |pre|
  {
    FindNthAt(s, ' ', n, |pre|);
  }

  /** Where the pieces of `pre + " " + x + " " + post` lie: `pre` and `pre + " " + x` are
      prefixes followed by a space, and `x` lies between the two spaces. */
  lemma FieldLayout(pre: string, x: string, post: string)
    ensures |pre| < |pre + " " + x| < |pre + " " + x + " " + post|
    ensures |pre + " " + x| == |pre| + 1 + |x|
    ensures (pre + " " + x + " " + post)[..|pre|] == pre
    ensures (pre + " " + x + " " + post)[|pre|] == ' '
    ensures (pre + " " + x + " " + post)[..|pre + " " + x|] == pre + " " + x
    ensures (pre + " " + x + " " + post)[|pre + " " + x|] == ' '
    ensures (pre + " " + x + " " + post)[|pre| + 1..|pre| + 1 + |x|] == x
  {
    var px := pre + " " + x;
    var s := px + " " + post;
    assert s[..|px|] == px;
    assert px[..|pre|] == pre;
    assert px[|pre| + 1..] == x;
  }

  lemma SpaceBefore(pre: string, x: string, post: string, n: int)
    requires n >= 1 && Count(pre, ' ') == n - 1
    ensures FindNth(pre + " " + x + " " + post, ' ', n) == |pre|
  {
    FieldLayout(pre, x, post);
    NthSpace(pre + " " + x + " " + post, pre, n);
  }

  lemma SpaceAfter(pre: string, x: string, post: string, n: int)
    requires n >= 1 && Count(pre, ' ') == n - 1 && ' ' !in x
    ensures FindNth(pre + " " + x + " " + post, ' ', n + 1) == |pre| + 1 + |x|
  {
    FieldLayout(pre, x, post);
    CountAfter(pre, x);
    NthSpace(pre + " " + x + " " + post, pre + " " + x, n + 1);
  }

  /** `turn()` reads the one character after the first space. */
  lemma TurnAt(pre: string, x: string, post: string)
    requires Count(pre, ' ') == 0 && |x| == 1
    ensures Turn(pre + " " + x + " " + post) == Some(x[0])
  {
    FieldLayout(pre, x, post);
    SpaceBefore(pre, x, post, 1);
    assert (pre + " " + x + " " + post)[|pre| + 1] == x[0];
  }

  /** `castle()` reads the field between the second and the third space. */
  lemma CastleAt(pre: string, x: string, post: string)
    requires Count(pre, ' ') == 1 && ' ' !in x
    ensures Castle(pre + " " + x + " " + post) == x
  {
    FieldLayout(pre, x, post);
    SpaceBefore(pre, x, post, 2);
    SpaceAfter(pre, x, post, 2);
  }

  /** `halfmove_clock()` reads the field between the fourth and the fifth space. */
  lemma HalfmoveAt(pre: string, x: string, post: string)
    requires Count(pre, ' ') == 3 && ' ' !in x
    ensures HalfmoveText(pre + " " + x + " " + post) == x
  {
    FieldLayout(pre, x, post);
    SpaceBefore(pre, x, post, 4);
    SpaceAfter(pre, x, post, 4);
  }

  /** `fullmove_number()` reads everything after the fifth space. */
  lemma FullmoveAt(pre: string, x: string)
    requires Count(pre, ' ') == 4
    ensures FullmoveText(pre + " " + x) == x
  {
    LastLayout(pre, x);
    NthSpace(pre + " " + x, pre, 5);
  }

  lemma LastLayout(pre: string, x: string)
    ensures |pre| < |pre + " " + x|
    ensures (pre + " " + x)[..|pre|] == pre
    ensures (pre + " " + x)[|pre|] == ' '
    ensures (pre + " " + x)[|pre| + 1..] == x
  {
  }

  /** Six space-free fields joined by spaces. */
  predicate SpaceFree(p: string, c: string, k: string, e: string, h: string, f: string)
  {
    ' ' !in p && ' ' !in c && ' ' !in k && ' ' !in e && ' ' !in h && ' ' !in f
  }

  function Record(p: string, c: string, k: string, e: string, h: string, f: string): string
  {
    p + " " + c + " " + k + " " + e + " " + h + " " + f
  }

  lemma CountAfter(pre: string, x: string)
    requires ' ' !in x
    ensures Count(pre + " " + x, ' ') == Count(pre, ' ') + 1
  {
    CountAppend(pre + " ", x, ' ');
    CountAppend(pre, " ", ' ');
  }

  /** The spaces before each field of a record. */
  lemma RecordCounts(p: string, c: string, k: string, e: string, h: string)
    requires ' ' !in p && ' ' !in c && ' ' !in k && ' ' !in e && ' ' !in h
    ensures Count(p, ' ') == 0
    ensures Count(p + " " + c, ' ') == 1
    ensures Count(p + " " + c + " " + k + " " + e, ' ') == 3
    ensures Count(p + " " + c + " " + k + " " + e + " " + h, ' ') == 4
  {
    CountAfter(p, c);
    CountAfter(p + " " + c, k);
    CountAfter(p + " " + c + " " + k, e);
    CountAfter(p + " " + c + " " + k + " " + e, h);
  }

  lemma TurnRead(p: string, c: string, k: string, e: string, h: string, f: string)
    requires SpaceFree(p, c, k, e, h, f) && |c| == 1
    ensures Turn(Record(p, c, k, e, h, f)) == Some(c[0])
  {
    RecordCounts(p, c, k, e, h);
    RecordAtTurn(p, c, k, e, h, f);
    TurnAt(p, c, k + " " + e + " " + h + " " + f);
  }

  lemma CastleRead(p: string, c: string, k: string, e: string, h: string, f: string)
    requires SpaceFree(p, c, k, e, h, f)
    ensures Castle(Record(p, c, k, e, h, f)) == k
  {
    RecordCounts(p, c, k, e, h);
    RecordAtCastle(p, c, k, e, h, f);
    CastleAt(p + " " + c, k, e + " " + h + " " + f);
  }

  lemma HalfmoveRead(p: string, c: string, k: string, e: string, h: string, f: string)
    requires SpaceFree(p, c, k, e, h, f)
    ensures HalfmoveText(Record(p, c, k, e, h, f)) == h
  {
    RecordCounts(p, c, k, e, h);
    HalfmoveAt(p + " " + c + " " + k + " " + e, h, f);
  }

  lemma FullmoveRead(p: string, c: string, k: string, e: string, h: string, f: string)
    requires SpaceFree(p, c, k, e, h, f)
    ensures FullmoveText(Record(p, c, k, e, h, f)) == f
  {
    RecordCounts(p, c, k, e, h);
    FullmoveAt(p + " " + c + " " + k + " " + e + " " + h, f);
  }

  /** A record `fen_generator` writes is its six fields joined by spaces. */
  lemma FenFields(board: Board, turn: bool, wks: bool, wqs: bool, bks: bool, bqs: bool,
                  piece: Cell, start: int, target: int, letter: string,
                  halfmoveClock: int, fullmoveNumber: int)
    ensures FenGenerator(board, turn, wks, wqs, bks, bqs, piece, start, target, letter, halfmoveClock, fullmoveNumber)
      == Record(PlacementField(board), [if turn then 'w' else 'b'], CastlingAvailability(wks, wqs, bks, bqs),
                EpText(turn, piece, start, target, letter), IntToString(halfmoveClock), IntToString(fullmoveNumber))
  {
    ActiveColorField(turn);
    HalfmoveField(halfmoveClock);
    Assemble(PlacementField(board), ActiveColor(turn), CastlingAvailability(wks, wqs, bks, bqs),
             EpTargetSquare(turn, piece, start, target, letter), Halfmove(halfmoveClock),
             [if turn then 'w' else 'b'], EpText(turn, piece, start, target, letter), IntToString(halfmoveClock),
             IntToString(fullmoveNumber));
  }

  lemma ActiveColorField(turn: bool)
    ensures ActiveColor(turn) == " " + [if turn then 'w' else 'b'] + " "
  {
  }

  lemma HalfmoveField(halfmoveClock: int)
    ensures Halfmove(halfmoveClock) == IntToString(halfmoveClock) + " "
  {
  }

  /** The writer's pieces, each carrying its own spaces, make up the record. */
  lemma Assemble(p: string, a: string, k: string, ep: string, hm: string, c: string, e: string, h: string, f: string)
    requires a == " " + c + " " && ep == " " + e + " " && hm == h + " "
    ensures p + a + k + ep + hm + f == Record(p, c, k, e, h, f)
  {
  }

  lemma RecordAtTurn(p: string, c: string, k: string, e: string, h: string, f: string)
    ensures Record(p, c, k, e, h, f) == p + " " + c + " " + (k + " " + e + " " + h + " " + f)
  {
  }

  lemma RecordAtCastle(p: string, c: string, k: string, e: string, h: string, f: string)
    ensures Record(p, c, k, e, h, f) == (p + " " + c) + " " + k + " " + (e + " " + h + " " + f)
  {
  }

  lemma AfterPlacement(p: string, c: string, k: string, e: string, h: string, f: string)
    ensures Record(p, c, k, e, h, f) == p + (" " + c + " " + k + " " + e + " " + h + " " + f)
  {
  }

  /** `turn()`, `castle()`, `halfmove_clock()` and `fullmove_number()` read back from a
      record `fen_generator` wrote the side to move, the castling field and the two
      counters it was given, provided the file letter holds no space. */
  lemma FieldsRoundTrip(board: Board, turn: bool, wks: bool, wqs: bool, bks: bool, bqs: bool,
                        piece: Cell, start: int, target: int, letter: string,
                        halfmoveClock: int, fullmoveNumber: int)
    requires ' ' !in letter
    ensures var fen := FenGenerator(board, turn, wks, wqs, bks, bqs, piece, start, target, letter, halfmoveClock, fullmoveNumber);
      && Turn(fen) == Some(if turn then 'w' else 'b')
      && Castle(fen) == CastlingAvailability(wks, wqs, bks, bqs)
      && HalfmoveClock(fen) == Some(halfmoveClock)
      && FullmoveNumber(fen) == Some(fullmoveNumber)
  {
    var p := PlacementField(board);
    var c: string := [if turn then 'w' else 'b'];
    var k := CastlingAvailability(wks, wqs, bks, bqs);
    var e := EpText(turn, piece, start, target, letter);
    var h := IntToString(halfmoveClock);
    var f := IntToString(fullmoveNumber);
    FenFields(board, turn, wks, wqs, bks, bqs, piece, start, target, letter, halfmoveClock, fullmoveNumber);
    TurnRead(p, c, k, e, h, f);
    CastleRead(p, c, k, e, h, f);
    HalfmoveRead(p, c, k, e, h, f);
    FullmoveRead(p, c, k, e, h, f);
    IntToStringReadsBack(halfmoveClock);
    IntToStringReadsBack(fullmoveNumber);
  }

  /** `parse` reads back the board from a whole record. */
  lemma FenBoardRoundTrip(board: Board, turn: bool, wks: bool, wqs: bool, bks: bool, bqs: bool,
                          piece: Cell, start: int, target: int, letter: string,
                          halfmoveClock: int, fullmoveNumber: int)
    ensures Parse(FenGenerator(board, turn, wks, wqs, bks, bqs, piece, start, target, letter, halfmoveClock, fullmoveNumber))
      == Some(board)
  {
    var p := PlacementField(board);
    var c: string := [if turn then 'w' else 'b'];
    var k := CastlingAvailability(wks, wqs, bks, bqs);
    var e := EpText(turn, piece, start, target, letter);
    var h := IntToString(halfmoveClock);
    var f := IntToString(fullmoveNumber);
    FenFields(board, turn, wks, wqs, bks, bqs, piece, start, target, letter, halfmoveClock, fullmoveNumber);
    AfterPlacement(p, c, k, e, h, f);
    PlacementRoundTrip(board, " " + c + " " + k + " " + e + " " + h + " " + f);
  }

  // ---------------------------------------------------------------------------------------
  // The en-passant field

  /** After a pawn's two-square advance from its home row, the en-passant field names, in
      algebraic notation, the square `make_move` records as the en-passant square, when it
      is given the file letter of the square the pawn left and the side to move after the
      advance. */
  lemma EpFieldNamesEpSquare(m: Move)
    requires IsPawn(m.pieceMoved) && OnBoard(m.startRow, m.startCol)
    requires m.pieceMoved.color == White ==> m.startRow == 6 && m.targetRow == 4
    requires m.pieceMoved.color == Black ==> m.startRow == 1 && m.targetRow == 3
    ensures EpAfter(m).Some? && OnBoard(EpAfter(m).value.0, EpAfter(m).value.1)
    ensures EpTargetSquare(m.pieceMoved.color == Black, m.pieceMoved, m.startRow, m.targetRow,
                           [Convert(m.startRow, m.startCol)[0]])
      == " " + Convert(EpAfter(m).value.0, EpAfter(m).value.1) + " "
  {
    var sq := EpAfter(m).value;
    assert sq.1 == m.startCol;
    if m.pieceMoved.color == White {
      assert sq.0 == 5;
      assert IntToString(3) == "3";
    } else {
      assert sq.0 == 2;
      assert IntToString(6) == "6";
    }
  }
}
