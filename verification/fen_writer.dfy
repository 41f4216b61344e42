/** fen_writer.py: the six fields of a FEN record built from the engine's state, each by its
    own function, and `fen_generator` joining them. */
module FenWriter {
  import opened Pieces
  import opened Boards
  import opened Strings

  // ---------------------------------------------------------------------------------------
  // piece_placement

  /** The letter a piece is written as: its kind letter, lower-cased for black. */
  function PieceLetter(color: Color, kind: Kind): (ch: char)
    ensures IsUpper(ch) <==> color == White
    ensures IsLower(ch) <==> color == Black
    ensures Upper(ch) == KindLetter(kind)
  {
    var k := KindLetter(kind);
    if color == White then k
    else
      var l := Lower(k);
      assert color == Black;
      assert IsLower(l) && !IsUpper(l) && Upper(l) == k;
      l
  }

  /** `if counter > 0: fen += str(counter)`: a pending run of empty squares written out. */
  function Flush(fen: string, counter: nat): string
  {
    if counter > 0 then fen + NatToString(counter) else fen
  }

  /** One pass of the inner loop over a square: an empty one lengthens the run, a piece
      ends it and is written after it. */
  function CellStep(fen: string, counter: nat, x: Cell): (string, nat)
  {
    match x
    case Empty => (fen, counter + 1)
    case Piece(color, kind) => (Flush(fen, counter) + [PieceLetter(color, kind)], 0)
  }

  /** The inner loop over the squares of one row, left to right. */
  function ScanCells(row: seq<Cell>, fen: string, counter: nat): (string, nat)
    decreases |row|
  {
    if row == [] then (fen, counter)
    else
      var s := CellStep(fen, counter, row[0]);
      ScanCells(row[1..], s.0, s.1)
  }

  /** The outer loop over the rows: each opened by '/', after the run the previous row left
      pending; the last pending run is written at the end. */
  function ScanRows(rows: seq<seq<Cell>>, fen: string, counter: nat): string
    decreases |rows|
  {
    if rows == [] then Flush(fen, counter)
    else
      var s := ScanCells(rows[0], Flush(fen, counter) + "/", 0);
      ScanRows(rows[1..], s.0, s.1)
  }

  /** `piece_placement("", board)`. */
  function PiecePlacement(board: Board): string
  {
    ScanRows(board, "", 0)
  }

  // ---------------------------------------------------------------------------------------
  // The placement field as FEN describes it

  /** The digit for `k` pending empty squares, or nothing when there are none. */
  function Run(k: nat): string
  {
    if k == 0 then "" else NatToString(k)
  }

  /** One rank as FEN writes it, after `k` empty squares already seen: every maximal run of
      empty squares as its length, every piece as its letter. */
  function RankText(row: seq<Cell>, k: nat): string
    decreases |row|
  {
    if row == [] then Run(k)
    else if row[0] == Empty then RankText(row[1..], k + 1)
    else Run(k) + [PieceLetter(row[0].color, row[0].kind)] + RankText(row[1..], 0)
  }

  function RankField(row: seq<Cell>): string
  {
    RankText(row, 0)
  }

  /** The ranks of the placement field, top row first. */
  function RankFields(board: Board): (ranks: seq<string>)
    ensures |ranks| == 8
    ensures forall i :: 0 <= i < 8 ==> ranks[i] == RankField(board[i])
  {
    seq(8, i requires 0 <= i < 8 => RankField(board[i]))
  }

  /** Each row opened by '/'. */
  function Opened(rows: seq<seq<Cell>>): string
    decreases |rows|
  {
    if rows == [] then "" else "/" + RankField(rows[0]) + Opened(rows[1..])
  }

  /** What the inner loop adds to the string, once its last run is written out, is the rank
      as FEN writes it. */
  lemma {:induction false} ScanCellsWritesRank(row: seq<Cell>, fen: string, k: nat)
    decreases |row|
    ensures Flush(ScanCells(row, fen, k).0, ScanCells(row, fen, k).1) == fen + RankText(row, k)
  {
    if row != [] {
      var s := CellStep(fen, k, row[0]);
      ScanCellsWritesRank(row[1..], s.0, s.1);
      if row[0] != Empty {
        assert s.0 == fen + Run(k) + [PieceLetter(row[0].color, row[0].kind)];
      }
    }
  }

  /** The outer loop writes every row opened by '/'. */
  lemma {:induction false} ScanRowsOpensRows(rows: seq<seq<Cell>>, fen: string, k: nat)
    decreases |rows|
    ensures ScanRows(rows, fen, k) == Flush(fen, k) + Opened(rows)
  {
    if rows != [] {
      var start := Flush(fen, k) + "/";
      var s := ScanCells(rows[0], start, 0);
      ScanCellsWritesRank(rows[0], start, 0);
      ScanRowsOpensRows(rows[1..], s.0, s.1);
    }
  }

  /** A rank's text holds only digits and piece letters: no '/' and no space. */
  lemma {:induction false} RankTextLetters(row: seq<Cell>, k: nat)
    decreases |row|
    ensures '/' !in RankText(row, k) && ' ' !in RankText(row, k)
  {
    if row != [] {
      if row[0] == Empty {
        RankTextLetters(row[1..], k + 1);
      } else {
        RankTextLetters(row[1..], 0);
      }
    }
  }

  /** Every digit is between 1 and 8, and no two digits stand next to each other. */
  predicate RunsWellFormed(t: string)
  {
    && (forall i :: 0 <= i < |t| && IsDigit(t[i]) ==> '1' <= t[i] <= '8')
    && (forall i :: 0 <= i < |t| - 1 ==> !(IsDigit(t[i]) && IsDigit(t[i + 1])))
  }

  /** A rank of at most eight squares has well-formed runs: a run is written only when a
      piece or the end of the rank closes it, and it is never longer than eight. */
  lemma {:induction false} RankTextDigits(row: seq<Cell>, k: nat)
    requires k + |row| <= 8
    decreases |row|
    ensures RunsWellFormed(RankText(row, k))
  {
    if row == [] {
      if k > 0 {
        assert Run(k) == [DigitChar(k)];
        assert DigitValue(DigitChar(k)) == k;
      }
    } else if row[0] == Empty {
      RankTextDigits(row[1..], k + 1);
      assert RankText(row, k) == RankText(row[1..], k + 1);
    } else {
      var l := PieceLetter(row[0].color, row[0].kind);
      var rest := RankText(row[1..], 0);
      RankTextDigits(row[1..], 0);
      assert RunsWellFormed(rest);
      var t := RankText(row, k);
      assert !IsDigit(l);
      var head := if k == 0 then [l] else [DigitChar(k), l];
      assert t == head + rest;
      if k > 0 {
        assert DigitValue(DigitChar(k)) == k;
      }
      forall i | 0 <= i < |t| && IsDigit(t[i])
        ensures '1' <= t[i] <= '8'
      {
        if i >= |head| {
          assert t[i] == rest[i - |head|];
        }
      }
      forall i | 0 <= i < |t| - 1
        ensures !(IsDigit(t[i]) && IsDigit(t[i + 1]))
      {
        if i >= |head| {
          assert t[i] == rest[i - |head|] && t[i + 1] == rest[i + 1 - |head|];
        }
      }
    }
  }

  lemma {:induction false} OpenedIsJoin(rows: seq<seq<Cell>>)
    requires |rows| >= 1
    decreases |rows|
    ensures Opened(rows) == "/" + Join(seq(|rows|, i requires 0 <= i < |rows| => RankField(rows[i])), '/')
  {
    var fields := seq(|rows|, i requires 0 <= i < |rows| => RankField(rows[i]));
    if |rows| > 1 {
      OpenedIsJoin(rows[1..]);
      var tail := seq(|rows| - 1, i requires 0 <= i < |rows| - 1 => RankField(rows[1..][i]));
      assert fields[1..] == tail;
    } else {
      assert Opened(rows[1..]) == "";
    }
  }

  /** `piece_placement(fen, board).replace("/", "", 1)`: with its leading '/' removed, the
      placement field is the eight ranks, top row first, separated by '/'. */
  function PlacementField(board: Board): (f: string)
    ensures f == Join(RankFields(board), '/')
    ensures ' ' !in f
  {
    PlacementOpened(board);
    RemoveLeading(Join(RankFields(board), '/'), '/');
    PlacementHasNoSpace(board);
    RemoveFirst(PiecePlacement(board), '/')
  }

  /** The loop writes a '/' and then the ranks separated by '/'. */
  lemma PlacementOpened(board: Board)
    ensures PiecePlacement(board) == "/" + Join(RankFields(board), '/')
  {
    ScanRowsOpensRows(board, "", 0);
    assert PiecePlacement(board) == Flush("", 0) + Opened(board);
    assert Flush("", 0) == "";
    OpenedIsJoin(board);
    FieldsOfBoard(board);
  }

  lemma FieldsOfBoard(board: Board)
    ensures seq(|board|, i requires 0 <= i < |board| => RankField(board[i])) == RankFields(board)
  {
  }

  lemma RemoveLeading(body: string, ch: char)
    ensures RemoveFirst([ch] + body, ch) == body
  {
    var s := [ch] + body;
    assert Find(s, ch, 0) == 0;
    assert s[1..] == body;
  }

  lemma PlacementHasNoSpace(board: Board)
    ensures ' ' !in Join(RankFields(board), '/')
  {
    forall i | 0 <= i < 8
      ensures ' ' !in RankFields(board)[i]
    {
      RankTextLetters(board[i], 0);
    }
    JoinHasNoSpace(RankFields(board));
  }

  lemma {:induction false} JoinHasNoSpace(ranks: seq<string>)
    requires |ranks| >= 1
    requires forall i :: 0 <= i < |ranks| ==> ' ' !in ranks[i]
    decreases |ranks|
    ensures ' ' !in Join(ranks, '/')
  {
    if |ranks| > 1 {
      JoinHasNoSpace(ranks[1..]);
    }
  }

  // ---------------------------------------------------------------------------------------
  // The other fields

  /** `active_color("", turn)`. */
  function ActiveColor(turn: bool): (f: string)
    ensures |f| == 3 && f[0] == ' ' && f[2] == ' '
    ensures f[1] == 'w' <==> turn
    ensures f[1] == 'b' <==> !turn
  {
    if turn then " w " else " b "
  }

  /** The loop of `castling_availability` from position `i` of "KQkq" on. */
  function CastlingFrom(flags: seq<bool>, i: nat): (s: string)
    requires |flags| == 4 && i <= 4
    decreases 4 - i
  {
    if i == 4 then "" else (if flags[i] then ["KQkq"[i]] else "") + CastlingFrom(flags, i + 1)
  }

  /** The loop from position `i` on writes the letters at or after `i` whose flag is set,
      and nothing else. */
  lemma {:induction false} CastlingFromLetters(flags: seq<bool>, i: nat)
    requires |flags| == 4 && i <= 4
    decreases 4 - i
    ensures |CastlingFrom(flags, i)| <= 4 - i
    ensures forall ch :: ch in CastlingFrom(flags, i) ==> ch in "KQkq"
    ensures forall j :: 0 <= j < 4 ==> ("KQkq"[j] in CastlingFrom(flags, i) <==> i <= j && flags[j])
    ensures CastlingFrom(flags, i) == "" <==> forall j :: i <= j < 4 ==> !flags[j]
  {
    if i < 4 {
      CastlingFromLetters(flags, i + 1);
      var head := if flags[i] then ["KQkq"[i]] else "";
      var rest := CastlingFrom(flags, i + 1);
      assert CastlingFrom(flags, i) == head + rest;
      assert forall ch :: ch in head + rest <==> ch in head || ch in rest;
    }
  }

  /** `castling_availability(wks, wqs, bks, bqs)`: the letters of "KQkq" whose flag is set,
      in that order, or "-" when none is. */
  function CastlingAvailability(wks: bool, wqs: bool, bks: bool, bqs: bool): (s: string)
    ensures s == "-" <==> !wks && !wqs && !bks && !bqs
    ensures ' ' !in s && 1 <= |s| <= 4
    ensures ('K' in s <==> wks) && ('Q' in s <==> wqs) && ('k' in s <==> bks) && ('q' in s <==> bqs)
    ensures s == (if !wks && !wqs && !bks && !bqs then "-"
                  else (if wks then "K" else "") + (if wqs then "Q" else "") + (if bks then "k" else "") + (if bqs then "q" else ""))
  {
    var castle := CastlingFrom([wks, wqs, bks, bqs], 0);
    CastlingLetters([wks, wqs, bks, bqs]);
    if castle == "" then "-" else castle
  }

  /** The whole loop writes "K", "Q", "k" and "q" each exactly when its flag is set, and
      nothing else. */
  lemma CastlingLetters(flags: seq<bool>)
    requires |flags| == 4
    ensures var s := CastlingFrom(flags, 0);
      && |s| <= 4 && ' ' !in s && s != "-"
      && ('K' in s <==> flags[0]) && ('Q' in s <==> flags[1])
      && ('k' in s <==> flags[2]) && ('q' in s <==> flags[3])
      && (s == "" <==> !flags[0] && !flags[1] && !flags[2] && !flags[3])
      && s == (if flags[0] then "K" else "") + (if flags[1] then "Q" else "") + (if flags[2] then "k" else "") + (if flags[3] then "q" else "")
  {
    var s := CastlingFrom(flags, 0);
    CastlingFromLetters(flags, 0);
    assert "KQkq"[0] == 'K' && "KQkq"[1] == 'Q' && "KQkq"[2] == 'k' && "KQkq"[3] == 'q';
    assert ' ' !in "KQkq" && '-' !in "KQkq";
    assert s == "-" ==> '-' in s;
    CastlingInOrder(flags);
  }

  /** The four steps of the loop, one letter each, in the order "KQkq". */
  lemma CastlingInOrder(flags: seq<bool>)
    requires |flags| == 4
    ensures CastlingFrom(flags, 0) ==
      (if flags[0] then "K" else "") + (if flags[1] then "Q" else "") + (if flags[2] then "k" else "") + (if flags[3] then "q" else "")
  {
    assert "KQkq"[0] == 'K' && "KQkq"[1] == 'Q' && "KQkq"[2] == 'k' && "KQkq"[3] == 'q';
    assert CastlingFrom(flags, 3) == (if flags[3] then "q" else "");
    assert CastlingFrom(flags, 2) == (if flags[2] then "k" else "") + CastlingFrom(flags, 3);
    assert CastlingFrom(flags, 1) == (if flags[1] then "Q" else "") + CastlingFrom(flags, 2);
    assert CastlingFrom(flags, 0) == (if flags[0] then "K" else "") + CastlingFrom(flags, 1);
  }

  /** `ep_target_square("", turn, piece, start, target, letter)`: after a pawn's two-row
      advance, the file letter and the rank of the square it passed over; `start` is the row
      the pawn left and `turn` the side to move after the advance. */
  function EpTargetSquare(turn: bool, piece: Cell, start: int, target: int, letter: string): (f: string)
    ensures f == " " + EpText(turn, piece, start, target, letter) + " "
  {
    " " + EpText(turn, piece, start, target, letter) + " "
  }

  /** The value `ep_target_square` puts between its two spaces. */
  function EpText(turn: bool, piece: Cell, start: int, target: int, letter: string): (ep: string)
    ensures !PawnMovedTwoRows(piece, start, target) ==> ep == "-"
    ensures PawnMovedTwoRows(piece, start, target) && !turn ==> ep == letter + IntToString(start - 3)
    ensures PawnMovedTwoRows(piece, start, target) && turn ==> ep == letter + IntToString(start + 5)
    ensures ' ' !in letter ==> ' ' !in ep
  {
    if !PawnMovedTwoRows(piece, start, target) then "-"
    else if turn then letter + IntToString(start + 5)
    else letter + IntToString(start - 3)
  }

  /** `piece[1] == "P" and abs(start - target) == 2`. */
  predicate PawnMovedTwoRows(piece: Cell, start: int, target: int)
  {
    IsPawn(piece) && (start - target == 2 || target - start == 2)
  }

  /** `halfmove("", halfmove_clock)`. */
  function Halfmove(halfmoveClock: int): string
  {
    IntToString(halfmoveClock) + " "
  }

  /** `fullmove("", fullmove_number)`. */
  function Fullmove(fullmoveNumber: int): string
  {
    IntToString(fullmoveNumber)
  }

  /** `fen_generator`: the six fields in FEN order. */
  function FenGenerator(board: Board, turn: bool, wks: bool, wqs: bool, bks: bool, bqs: bool,
                        piece: Cell, start: int, target: int, letter: string,
                        halfmoveClock: int, fullmoveNumber: int): string
  {
    PlacementField(board) + ActiveColor(turn) + CastlingAvailability(wks, wqs, bks, bqs)
    + EpTargetSquare(turn, piece, start, target, letter) + Halfmove(halfmoveClock) + Fullmove(fullmoveNumber)
  }
}
