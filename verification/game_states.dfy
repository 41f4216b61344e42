/** `GameState`: the board, whose turn it is, the move log, the cached king squares, the
    end-of-game flags, the en-passant square and the castling rights with their log, and
    the two operations that change them, `make_move` and `undo_move`. */
module GameStates {
  import opened Options
  import opened Pieces
  import opened Boards
  import opened Moves
  import opened Castling
  import opened Generator

  datatype GameState = GameState(
    board: Board,
    whiteToMove: bool,
    moveLog: seq<Move>,
    wKing: Square,
    bKing: Square,
    checkmate: bool,
    stalemate: bool,
    ep: Option<Square>,
    rights: CastleRights,
    rightsLog: seq<CastleRights>)

  // ---------------------------------------------------------------------------------------
  // Invariants

  /** The king of `color` stands on (r, c). */
  predicate KingOn(b: Board, color: Color, r: int, c: int)
  {
    OnBoard(r, c) && At(b, r, c) == Piece(color, King)
  }

  /** The cached king squares hold the kings, and no other square holds one. */
  ghost predicate KingsCached(gs: GameState)
  {
    && OnBoard(gs.wKing.0, gs.wKing.1) && OnBoard(gs.bKing.0, gs.bKing.1)
    && (forall r, c {:trigger KingOn(gs.board, White, r, c)} ::
          KingOn(gs.board, White, r, c) <==> (r, c) == gs.wKing)
    && (forall r, c {:trigger KingOn(gs.board, Black, r, c)} ::
          KingOn(gs.board, Black, r, c) <==> (r, c) == gs.bKing)
  }

  /** `len(castling_rights_log) == len(move_log) + 1`. */
  predicate LogsAligned(gs: GameState)
  {
    |gs.rightsLog| == |gs.moveLog| + 1
  }

  /** An en-passant square is an empty square the opponent's pawn has just passed over: on
      row 2 with a black pawn below it when white is to move, on row 5 with a white pawn
      above it when black is. */
  predicate EpConsistent(gs: GameState)
  {
    match gs.ep
    case None => true
    case Some(sq) =>
      && OnBoard(sq.0, sq.1) && IsEmpty(gs.board, sq.0, sq.1)
      && (if gs.whiteToMove then sq.0 == 2 && At(gs.board, 3, sq.1) == Piece(Black, Pawn)
          else sq.0 == 5 && At(gs.board, 4, sq.1) == Piece(White, Pawn))
  }

  /** A colour keeps a castling right only while its king is on its home square; the
      castling generators look two and three squares beside the king. */
  predicate RightsNeedHomeKing(gs: GameState)
  {
    && (gs.rights.wks || gs.rights.wqs ==> gs.wKing == (7, 4))
    && (gs.rights.bks || gs.rights.bqs ==> gs.bKing == (0, 4))
  }

  /** The state `get_valid_moves` expects. */
  ghost predicate Sane(gs: GameState)
  {
    KingsCached(gs) && NoPawnOnFarRank(gs.board) && EpConsistent(gs)
    && RightsNeedHomeKing(gs) && LogsAligned(gs)
  }

  /** `GameState.__init__`. */
  function InitialState(): (gs: GameState)
    ensures Sane(gs)
    ensures gs.whiteToMove && gs.moveLog == [] && gs.ep == None
    ensures gs.rights == CastleRights(true, true, true, true) && gs.rightsLog == [gs.rights]
  {
    var b := InitialBoard();
    var gs := GameState(b, true, [], (7, 4), (0, 4), false, false, None,
      CastleRights(true, true, true, true), [CastleRights(true, true, true, true)]);
    assert forall r, c :: OnBoard(r, c) ==>
      (At(b, r, c) == Piece(White, King) <==> (r, c) == (7, 4)) by {
      forall r, c | OnBoard(r, c)
        ensures At(b, r, c) == Piece(White, King) <==> (r, c) == (7, 4)
      {
        if r == 0 { assert BackRank(Black)[c].color == Black; }
      }
    }
    assert forall r, c :: OnBoard(r, c) ==>
      (At(b, r, c) == Piece(Black, King) <==> (r, c) == (0, 4)) by {
      forall r, c | OnBoard(r, c)
        ensures At(b, r, c) == Piece(Black, King) <==> (r, c) == (0, 4)
      {
        if r == 7 { assert BackRank(White)[c].color == White; }
      }
    }
    gs
  }

  // ---------------------------------------------------------------------------------------
  // make_move

  /** The squares `make_move` indexes lie on the board (the source would wrap a negative
      index or fail on index 8), and a promoted piece has a colour to keep. */
  predicate MoveInBounds(m: Move)
  {
    && m.OnBoardMove()
    && (m.isCastle ==>
         if m.targetCol - m.startCol == 2 then 1 <= m.targetCol <= 6 else 2 <= m.targetCol <= 6)
    && (m.isPawnPromotion ==> m.pieceMoved.Piece?)
  }

  /** A move whose squares do not overlap in ways a real move never does: start and target
      differ, an en-passant capture advances one row and removes a pawn beside the start,
      and a castle moves the king two squares along its row. */
  predicate Clean(m: Move)
  {
    && !m.Start(m.targetRow, m.targetCol) && !(m.isEp && m.isCastle)
    && (m.isEp ==> m.targetRow == m.startRow + 1 || m.targetRow == m.startRow - 1)
    && (m.isCastle ==> m.startRow == m.targetRow && (m.targetCol - m.startCol == 2 || m.targetCol - m.startCol == -2))
  }

  /** The squares `make_move` writes. */
  predicate Touched(m: Move, r: int, c: int)
  {
    || m.Start(r, c) || m.Target(r, c)
    || (m.isEp && r == m.startRow && c == m.targetCol)
    || (m.isCastle && RookSquare(m, r, c))
  }

  /** The two squares a castle's rook leaves and lands on: the corner beside the target and
      the square the king passed, kingside; two squares past the target and the square
      beside it, queenside. */
  predicate RookSquare(m: Move, r: int, c: int)
  {
    r == m.targetRow &&
    if m.targetCol - m.startCol == 2 then c == m.targetCol - 1 || c == m.targetCol + 1
    else c == m.targetCol + 1 || c == m.targetCol - 2
  }

  /** What a move leaves on its target square: the moved piece, or a queen of its colour
      when it promotes. */
  function Arrival(m: Move): Cell
    requires m.isPawnPromotion ==> m.pieceMoved.Piece?
  {
    if m.isPawnPromotion then Piece(m.pieceMoved.color, Queen) else m.pieceMoved
  }

  /** The rook's jump over the king in `make_move`: kingside from the corner beside the
      target to the square the king passed; queenside from two squares past the target to
      the square beside it. */
  function CastleRook(b: Board, m: Move): (b': Board)
    requires MoveInBounds(m) && m.isCastle
    ensures m.targetCol - m.startCol == 2 ==>
      At(b', m.targetRow, m.targetCol - 1) == At(b, m.targetRow, m.targetCol + 1) && IsEmpty(b', m.targetRow, m.targetCol + 1)
    ensures m.targetCol - m.startCol != 2 ==>
      At(b', m.targetRow, m.targetCol + 1) == At(b, m.targetRow, m.targetCol - 2) && IsEmpty(b', m.targetRow, m.targetCol - 2)
    ensures forall r, c :: OnBoard(r, c) && !RookSquare(m, r, c) ==> At(b', r, c) == At(b, r, c)
  {
    var tr, tc := m.targetRow, m.targetCol;
    if tc - m.startCol == 2 then Put(Put(b, tr, tc - 1, At(b, tr, tc + 1)), tr, tc + 1, Empty)
    else Put(Put(b, tr, tc + 1, At(b, tr, tc - 2)), tr, tc - 2, Empty)
  }

  /** The board after `make_move`. */
  function MakeBoard(b: Board, m: Move): (b': Board)
    requires MoveInBounds(m)
    ensures Clean(m) ==> At(b', m.targetRow, m.targetCol) == Arrival(m) && IsEmpty(b', m.startRow, m.startCol)
    ensures Clean(m) && m.isEp ==> IsEmpty(b', m.startRow, m.targetCol)
    ensures Clean(m) && m.isCastle && m.targetCol - m.startCol == 2 ==>
      At(b', m.targetRow, m.targetCol - 1) == At(b, m.targetRow, m.targetCol + 1) && IsEmpty(b', m.targetRow, m.targetCol + 1)
    ensures Clean(m) && m.isCastle && m.targetCol - m.startCol != 2 ==>
      At(b', m.targetRow, m.targetCol + 1) == At(b, m.targetRow, m.targetCol - 2) && IsEmpty(b', m.targetRow, m.targetCol - 2)
    ensures forall r, c :: OnBoard(r, c) && !Touched(m, r, c) ==> At(b', r, c) == At(b, r, c)
  {
    var b1 := Put(Put(b, m.startRow, m.startCol, Empty), m.targetRow, m.targetCol, m.pieceMoved);
    var b2 := if m.isPawnPromotion then Put(b1, m.targetRow, m.targetCol, Arrival(m)) else b1;
    var b3 := if m.isEp then Put(b2, m.startRow, m.targetCol, Empty) else b2;
    if m.isCastle then CastleRook(b3, m) else b3
  }

  /** The en-passant square after a move: the square a pawn passed over on a two-square
      advance, and none after anything else. */
  function EpAfter(m: Move): (ep: Option<Square>)
    ensures IsPawn(m.pieceMoved) && m.targetRow == m.startRow - 2 ==> ep == Some((m.startRow - 1, m.startCol))
    ensures IsPawn(m.pieceMoved) && m.targetRow == m.startRow + 2 ==> ep == Some((m.startRow + 1, m.startCol))
    ensures !(IsPawn(m.pieceMoved) && (m.targetRow == m.startRow - 2 || m.targetRow == m.startRow + 2)) ==> ep == None
  {
    if IsPawn(m.pieceMoved) && Abs(m.startRow - m.targetRow) == 2
    then Some(((m.startRow + m.targetRow) / 2, m.startCol))
    else None
  }

  function Abs(x: int): (a: nat)
    ensures a == x || a == -x
  {
    if x < 0 then -x else x
  }

  /** `make_move`: moves the piece, appends the move to the log, passes the turn, follows
      the king, promotes, removes a pawn taken en passant, records the new en-passant
      square, moves the rook of a castle, clears the castling rights the move spoils and
      logs a copy of them. */
  function MakeMove(gs: GameState, m: Move): (gs': GameState)
    requires MoveInBounds(m)
    ensures gs'.board == MakeBoard(gs.board, m)
    ensures gs'.whiteToMove == !gs.whiteToMove && gs'.moveLog == gs.moveLog + [m]
    ensures gs'.wKing == (if m.pieceMoved == Piece(White, King) then (m.targetRow, m.targetCol) else gs.wKing)
    ensures gs'.bKing == (if m.pieceMoved == Piece(Black, King) then (m.targetRow, m.targetCol) else gs.bKing)
    ensures gs'.ep == EpAfter(m)
    ensures gs'.rights == UpdateCastleRights(gs.rights, m) && gs'.rightsLog == gs.rightsLog + [gs'.rights]
    ensures gs'.checkmate == gs.checkmate && gs'.stalemate == gs.stalemate
  {
    var rights := UpdateCastleRights(gs.rights, m);
    gs.(
      board := MakeBoard(gs.board, m),
      moveLog := gs.moveLog + [m],
      whiteToMove := !gs.whiteToMove,
      wKing := if m.pieceMoved == Piece(White, King) then (m.targetRow, m.targetCol) else gs.wKing,
      bKing := if m.pieceMoved == Piece(Black, King) then (m.targetRow, m.targetCol) else gs.bKing,
      ep := EpAfter(m),
      rights := rights,
      rightsLog := gs.rightsLog + [rights])
  }

  /** `make_move` appends one entry to each log, so it keeps them aligned. */
  lemma MakeKeepsLogsAligned(gs: GameState, m: Move)
    requires MoveInBounds(m) && LogsAligned(gs)
    ensures LogsAligned(MakeMove(gs, m))
    ensures |MakeMove(gs, m).moveLog| == |gs.moveLog| + 1
  {
  }

  /** The promotion flag a move carries when it was built on the board it is played on. */
  predicate PromotionCoherent(m: Move)
  {
    m.isPawnPromotion <==> IsPawn(m.pieceMoved) && m.targetRow == FarRank(m.pieceMoved.color)
  }

  /** Promotion keeps pawns off their last rank. */
  lemma MakeKeepsPawnsOffFarRank(b: Board, m: Move)
    requires MoveInBounds(m) && NoPawnOnFarRank(b) && PromotionCoherent(m) && Clean(m)
    requires m.isCastle ==> !IsPawn(At(b, m.targetRow, m.targetCol + 1)) && !IsPawn(At(b, m.targetRow, m.targetCol - 2))
    ensures NoPawnOnFarRank(MakeBoard(b, m))
  {
    var b' := MakeBoard(b, m);
    forall c | 0 <= c < 8
      ensures At(b', 0, c) != Piece(White, Pawn) && At(b', 7, c) != Piece(Black, Pawn)
    {
      if m.isCastle && m.targetCol - m.startCol == 2 && c == m.targetCol - 1 {
        assert At(b', m.targetRow, c) == At(b, m.targetRow, m.targetCol + 1);
      } else if m.isCastle && m.targetCol - m.startCol != 2 && c == m.targetCol + 1 {
        assert At(b', m.targetRow, c) == At(b, m.targetRow, m.targetCol - 2);
      }
    }
  }

  // ---------------------------------------------------------------------------------------
  // undo_move

  /** The rook's way back in `undo_move`. */
  function UncastleRook(b: Board, m: Move): (b': Board)
    requires MoveInBounds(m) && m.isCastle
    ensures m.targetCol - m.startCol == 2 ==>
      At(b', m.targetRow, m.targetCol + 1) == At(b, m.targetRow, m.targetCol - 1) && IsEmpty(b', m.targetRow, m.targetCol - 1)
    ensures m.targetCol - m.startCol != 2 ==>
      At(b', m.targetRow, m.targetCol - 2) == At(b, m.targetRow, m.targetCol + 1) && IsEmpty(b', m.targetRow, m.targetCol + 1)
    ensures forall r, c :: OnBoard(r, c) && !RookSquare(m, r, c) ==> At(b', r, c) == At(b, r, c)
  {
    var tr, tc := m.targetRow, m.targetCol;
    if tc - m.startCol == 2 then Put(Put(b, tr, tc + 1, At(b, tr, tc - 1)), tr, tc - 1, Empty)
    else Put(Put(b, tr, tc - 2, At(b, tr, tc + 1)), tr, tc + 1, Empty)
  }

  /** The board after `undo_move` takes back `m`. */
  function UndoBoard(b: Board, m: Move): (b': Board)
    requires MoveInBounds(m)
  {
    var b1 := Put(Put(b, m.startRow, m.startCol, m.pieceMoved), m.targetRow, m.targetCol, m.pieceCaptured);
    var b2 := if m.isEp then Put(Put(b1, m.targetRow, m.targetCol, Empty), m.startRow, m.targetCol, m.pieceCaptured) else b1;
    if m.isCastle then UncastleRook(b2, m) else b2
  }

  /** What `undo_move` needs of the state: the last move's squares on the board and a
      castling-rights entry left after the pop. */
  predicate CanUndo(gs: GameState)
  {
    |gs.moveLog| > 0 ==> MoveInBounds(gs.moveLog[|gs.moveLog| - 1]) && |gs.rightsLog| >= 2
  }

  /** `undo_move` as written. The restored rights are assigned to the misspelled attribute
      `current_castling_right`, so `rights` keeps its value. */
  function UndoMove(gs: GameState): (gs': GameState)
    requires CanUndo(gs)
    ensures |gs.moveLog| == 0 ==> gs' == gs
    ensures |gs.moveLog| > 0 ==>
      && gs'.moveLog == gs.moveLog[..|gs.moveLog| - 1] && gs'.rightsLog == gs.rightsLog[..|gs.rightsLog| - 1]
      && gs'.whiteToMove == !gs.whiteToMove && gs'.rights == gs.rights
      && !gs'.checkmate && !gs'.stalemate
  {
    if |gs.moveLog| == 0 then gs
    else
      var m := gs.moveLog[|gs.moveLog| - 1];
      var ep1 := if m.isEp then Some((m.targetRow, m.targetCol)) else gs.ep;
      var ep2 := if IsPawn(m.pieceMoved) && Abs(m.startRow - m.targetRow) == 2 then None else ep1;
      gs.(
        board := UndoBoard(gs.board, m),
        moveLog := gs.moveLog[..|gs.moveLog| - 1],
        whiteToMove := !gs.whiteToMove,
        wKing := if m.pieceMoved == Piece(White, King) then (m.startRow, m.startCol) else gs.wKing,
        bKing := if m.pieceMoved == Piece(Black, King) then (m.startRow, m.startCol) else gs.bKing,
        ep := ep2,
        rightsLog := gs.rightsLog[..|gs.rightsLog| - 1],
        checkmate := false,
        stalemate := false)
  }

  /** `undo_move` with the attribute name spelt as everywhere else: the rights are read
      back from the log after the pop. */
  function UndoMoveFixed(gs: GameState): (gs': GameState)
    requires CanUndo(gs)
    ensures |gs.moveLog| > 0 ==> gs'.rights == gs.rightsLog[|gs.rightsLog| - 2]
    ensures gs'.(rights := gs.rights) == UndoMove(gs)
  {
    if |gs.moveLog| == 0 then gs
    else UndoMove(gs).(rights := gs.rightsLog[|gs.rightsLog| - 2])
  }

  /** `undo_move` pops one entry from each log, so it keeps them aligned. */
  lemma UndoKeepsLogsAligned(gs: GameState)
    requires CanUndo(gs) && LogsAligned(gs)
    ensures LogsAligned(UndoMove(gs)) && LogsAligned(UndoMoveFixed(gs))
  {
  }

  // ---------------------------------------------------------------------------------------
  // Undo after make

  /** A move that can be taken back on this board: it was built here (it carries the piece
      on its start square and the piece it takes), its squares do not overlap, the squares
      a castle's rook lands on are empty, and the cached square of a moving king is its
      start square. */
  predicate Fits(gs: GameState, m: Move)
  {
    && MoveInBounds(m) && Clean(m)
    && At(gs.board, m.startRow, m.startCol) == m.pieceMoved
    && (!m.isEp ==> At(gs.board, m.targetRow, m.targetCol) == m.pieceCaptured)
    && (m.isEp ==>
         && IsEmpty(gs.board, m.targetRow, m.targetCol) && m.startCol != m.targetCol
         && At(gs.board, m.startRow, m.targetCol) == m.pieceCaptured)
    && (m.isCastle && m.targetCol - m.startCol == 2 ==> IsEmpty(gs.board, m.targetRow, m.targetCol - 1))
    && (m.isCastle && m.targetCol - m.startCol != 2 ==> IsEmpty(gs.board, m.targetRow, m.targetCol + 1))
    && (m.pieceMoved == Piece(White, King) ==> gs.wKing == (m.startRow, m.startCol))
    && (m.pieceMoved == Piece(Black, King) ==> gs.bKing == (m.startRow, m.startCol))
  }

  lemma RestorePlain(gs: GameState, m: Move)
    requires Fits(gs, m) && !m.isEp && !m.isCastle
    ensures UndoBoard(MakeBoard(gs.board, m), m) == gs.board
  {
    var b := gs.board;
    var b' := UndoBoard(MakeBoard(b, m), m);
    forall r, c | OnBoard(r, c)
      ensures At(b', r, c) == At(b, r, c)
    {
    }
    Extensionality(b', b);
  }

  lemma RestoreEp(gs: GameState, m: Move)
    requires Fits(gs, m) && m.isEp
    ensures UndoBoard(MakeBoard(gs.board, m), m) == gs.board
  {
    var b := gs.board;
    var b' := UndoBoard(MakeBoard(b, m), m);
    forall r, c | OnBoard(r, c)
      ensures At(b', r, c) == At(b, r, c)
    {
    }
    Extensionality(b', b);
  }

  lemma RestoreCastle(gs: GameState, m: Move)
    requires Fits(gs, m) && m.isCastle
    ensures UndoBoard(MakeBoard(gs.board, m), m) == gs.board
  {
    var b := gs.board;
    var b1 := Put(Put(b, m.startRow, m.startCol, Empty), m.targetRow, m.targetCol, m.pieceMoved);
    var b2 := if m.isPawnPromotion then Put(b1, m.targetRow, m.targetCol, Arrival(m)) else b1;
    var made := CastleRook(b2, m);
    assert MakeBoard(b, m) == made;
    var u1 := Put(Put(made, m.startRow, m.startCol, m.pieceMoved), m.targetRow, m.targetCol, m.pieceCaptured);
    var b' := UncastleRook(u1, m);
    assert UndoBoard(made, m) == b';
    forall r, c | OnBoard(r, c)
      ensures At(b', r, c) == At(b, r, c)
    {
    }
    Extensionality(b', b);
  }

  /** `undo_move` right after `make_move(m)` puts back the board, the turn, both king
      squares and both logs, for promotions, en-passant captures and castles too. It
      leaves the castling rights as `make_move` set them, and the en-passant square as
      the move's own: its target after an en-passant capture, none otherwise. */
  lemma UndoAfterMake(gs: GameState, m: Move)
    requires Fits(gs, m) && |gs.rightsLog| >= 1
    ensures CanUndo(MakeMove(gs, m))
    ensures var u := UndoMove(MakeMove(gs, m));
      && u.board == gs.board && u.whiteToMove == gs.whiteToMove
      && u.wKing == gs.wKing && u.bKing == gs.bKing
      && u.moveLog == gs.moveLog && u.rightsLog == gs.rightsLog
      && u.rights == UpdateCastleRights(gs.rights, m)
      && u.ep == (if m.isEp then Some((m.targetRow, m.targetCol)) else None)
      && !u.checkmate && !u.stalemate
  {
    var made := MakeMove(gs, m);
    assert made.moveLog[|made.moveLog| - 1] == m;
    assert made.moveLog[..|made.moveLog| - 1] == gs.moveLog;
    assert made.rightsLog[..|made.rightsLog| - 1] == gs.rightsLog;
    if m.isEp {
      RestoreEp(gs, m);
    } else if m.isCastle {
      RestoreCastle(gs, m);
    } else {
      RestorePlain(gs, m);
    }
  }

  /** The same with the corrected undo: the castling rights come back too, provided the
      log's last entry is the current rights, as `make_move` leaves it. */
  lemma UndoFixedAfterMake(gs: GameState, m: Move)
    requires Fits(gs, m) && |gs.rightsLog| >= 1 && gs.rightsLog[|gs.rightsLog| - 1] == gs.rights
    ensures CanUndo(MakeMove(gs, m))
    ensures var u := UndoMoveFixed(MakeMove(gs, m));
      && u.board == gs.board && u.whiteToMove == gs.whiteToMove
      && u.wKing == gs.wKing && u.bKing == gs.bKing
      && u.moveLog == gs.moveLog && u.rightsLog == gs.rightsLog && u.rights == gs.rights
  {
    UndoAfterMake(gs, m);
    var made := MakeMove(gs, m);
    assert made.rightsLog[|made.rightsLog| - 2] == gs.rightsLog[|gs.rightsLog| - 1];
  }

  // ---------------------------------------------------------------------------------------
  // Check

  /** `in_check`: the king of the side to move stands on a square the other side attacks. */
  predicate InCheck(gs: GameState)
    requires NoPawnOnFarRank(gs.board)
  {
    if gs.whiteToMove then SquareUnderAttack(gs.board, true, gs.ep, gs.wKing.0, gs.wKing.1)
    else SquareUnderAttack(gs.board, false, gs.ep, gs.bKing.0, gs.bKing.1)
  }
}
