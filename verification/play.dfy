/** Playing the moves `get_valid_moves` returns. From the initial position on, every move
    the as-written engine returns, and every move but a castle the corrected one returns,
    keeps the state one `get_valid_moves` accepts, with the king of the side that has just
    moved out of reach, so no king is captured. A castle can break this: `castling` asks
    `square_under_attack`, which does not see a pawn guarding an empty square. */
module Play {
  import opened Options
  import opened Pieces
  import opened Boards
  import opened Moves
  import opened Castling
  import opened Generator
  import opened GeneratorFacts
  import opened GameStates
  import opened ValidMoves
  import opened ValidMoveFacts

  /** The cached square of the king of `color`. */
  function Cached(gs: GameState, color: Color): Square
  {
    if color == White then gs.wKing else gs.bKing
  }

  /** The side that has just moved: the one not to move. */
  function Waiting(gs: GameState): Color
  {
    Opponent(SideToMove(gs.whiteToMove))
  }

  /** A pseudo-legal move of the side to move lands on the king of the side that has just
      moved. */
  predicate KingExposed(gs: GameState)
    requires NoPawnOnFarRank(gs.board)
  {
    var k := Cached(gs, Waiting(gs));
    Reaches(PossibleMoves(gs.board, gs.whiteToMove, gs.ep), k.0, k.1)
  }

  /** A state of legal play: sane, and the king of the side that has just moved is not
      exposed. */
  ghost predicate InPlay(gs: GameState)
  {
    Sane(gs) && !KingExposed(gs)
  }

  // ---------------------------------------------------------------------------------------
  // One move

  /** The cache of a colour's king, as a single quantified fact. */
  lemma CachedKing(gs: GameState, color: Color)
    requires KingsCached(gs)
    ensures OnBoard(Cached(gs, color).0, Cached(gs, color).1)
    ensures forall r, c :: KingOn(gs.board, color, r, c) <==> (r, c) == Cached(gs, color)
  {
  }

  /** A generated move of a state whose waiting king is not exposed takes no king. */
  lemma NoKingTaken(gs: GameState, m: Move)
    requires InPlay(gs) && m in Pseudo(gs)
    ensures m.pieceCaptured != Piece(White, King) && m.pieceCaptured != Piece(Black, King)
  {
    var b := gs.board;
    assert Generated(b, gs.whiteToMove, gs.ep, m);
    if !m.isEp {
      CachedKing(gs, Waiting(gs));
      assert m.pieceCaptured == Piece(Waiting(gs), King) ==> KingOn(b, Waiting(gs), m.targetRow, m.targetCol);
    }
  }

  /** The cached square of a king follows a move that does not take that king: to the
      target when the king moves, and nowhere otherwise. */
  lemma KingFollowed(gs: GameState, m: Move, color: Color)
    requires KingsCached(gs) && Playable(gs, m) && m.pieceCaptured != Piece(color, King)
    ensures OnBoard(Cached(MakeMove(gs, m), color).0, Cached(MakeMove(gs, m), color).1)
    ensures forall r, c :: KingOn(MakeBoard(gs.board, m), color, r, c) <==> (r, c) == Cached(MakeMove(gs, m), color)
  {
    var b, b' := gs.board, MakeBoard(gs.board, m);
    var k, k' := Cached(gs, color), Cached(MakeMove(gs, m), color);
    CachedKing(gs, color);
    assert k' == (if m.pieceMoved == Piece(color, King) then (m.targetRow, m.targetCol) else k);
    forall r, c
      ensures KingOn(b', color, r, c) <==> (r, c) == k'
    {
      if OnBoard(r, c) && !Touched(m, r, c) {
        assert At(b', r, c) == At(b, r, c);
        assert KingOn(b, color, r, c) <==> (r, c) == k;
      }
    }
  }

  /** A pawn's two-row move is a step from its home row over an empty square. */
  lemma DoubleStep(gs: GameState, m: Move)
    requires Sane(gs) && m in Pseudo(gs) && IsPawn(m.pieceMoved)
    requires m.targetRow == m.startRow - 2 || m.targetRow == m.startRow + 2
    ensures m.startRow == PawnHome(gs.whiteToMove) && m.targetRow == m.startRow + 2 * Forward(gs.whiteToMove)
    ensures m.targetCol == m.startCol && !m.isEp
    ensures IsEmpty(gs.board, m.startRow + Forward(gs.whiteToMove), m.startCol)
    ensures IsEmpty(gs.board, m.targetRow, m.targetCol)
  {
    var b, r, c := gs.board, m.startRow, m.startCol;
    PossibleMovesMembers(b, gs.whiteToMove, gs.ep, m);
    PawnPieceMoves(b, gs.whiteToMove, gs.ep, r, c);
    DoubleStepShape(b, gs.whiteToMove, gs.ep, r, c, m);
  }

  /** Among a pawn's moves, the two-row ones are the double steps. */
  lemma DoubleStepShape(b: Board, whiteToMove: bool, ep: Option<Square>, r: int, c: int, m: Move)
    requires OnBoard(r, c) && OnBoard(r + Forward(whiteToMove), c)
    requires m in PawnMoves(b, whiteToMove, ep, r, c)
    requires m.targetRow == r - 2 || m.targetRow == r + 2
    ensures r == PawnHome(whiteToMove) && m.targetRow == r + 2 * Forward(whiteToMove)
    ensures m.targetCol == c && !m.isEp
    ensures IsEmpty(b, r + Forward(whiteToMove), c) && IsEmpty(b, m.targetRow, c)
  {
    assert PawnStep(b, whiteToMove, r, c, m.targetRow, m.targetCol);
  }

  /** For a pawn, `move_functions` calls `pawn_moves`. */
  lemma PawnPieceMoves(b: Board, whiteToMove: bool, ep: Option<Square>, r: int, c: int)
    requires NoPawnOnFarRank(b) && OnBoard(r, c) && Team(b, whiteToMove, r, c) && IsPawn(At(b, r, c))
    ensures OnBoard(r + Forward(whiteToMove), c)
    ensures PieceMoves(b, whiteToMove, ep, r, c) == PawnMoves(b, whiteToMove, ep, r, c)
  {
  }

  /** After a legal move the en-passant square is the one a pawn's double step passed
      over, with that pawn beside it. */
  lemma MadeEpConsistent(gs: GameState, m: Move)
    requires Sane(gs) && m in Pseudo(gs) && Playable(gs, m)
    ensures EpConsistent(MakeMove(gs, m))
  {
    if IsPawn(m.pieceMoved) && (m.targetRow == m.startRow - 2 || m.targetRow == m.startRow + 2) {
      DoubleStep(gs, m);
      assert Team(gs.board, gs.whiteToMove, m.startRow, m.startCol);
      DoubleStepEp(gs.board, gs.whiteToMove, m, MakeMove(gs, m));
    }
  }

  /** The en-passant square a double step leaves behind. */
  lemma DoubleStepEp(b: Board, whiteToMove: bool, m: Move, gs': GameState)
    requires MoveInBounds(m) && Clean(m) && !m.isEp && !m.isCastle && m.targetCol == m.startCol
    requires m.pieceMoved == Piece(SideToMove(whiteToMove), Pawn) && !m.isPawnPromotion
    requires m.startRow == PawnHome(whiteToMove) && m.targetRow == m.startRow + 2 * Forward(whiteToMove)
    requires IsEmpty(b, m.startRow + Forward(whiteToMove), m.startCol)
    requires gs'.board == MakeBoard(b, m) && gs'.whiteToMove == !whiteToMove && gs'.ep == EpAfter(m)
    ensures EpConsistent(gs')
  {
    var d := Forward(whiteToMove);
    assert !Touched(m, m.startRow + d, m.startCol);
  }

  /** A colour keeps a castling right only while its king has not moved. */
  lemma MadeRightsNeedHomeKing(gs: GameState, m: Move)
    requires RightsNeedHomeKing(gs) && MoveInBounds(m)
    ensures RightsNeedHomeKing(MakeMove(gs, m))
  {
    if m.pieceMoved.Piece? && m.pieceMoved.kind == King {
      KingMoveClearsBoth(gs.rights, m);
    }
  }

  /** The state `in_check` examines after a move is the state after it with the turn
      handed back, so a move that passes leaves the mover's king unexposed. */
  lemma PassedNotExposed(gs: GameState, m: Move)
    requires Legal(gs, m) && NoPawnOnFarRank(MakeBoard(gs.board, m))
    ensures !KingExposed(MakeMove(gs, m))
  {
    var gs' := MakeMove(gs, m);
    assert Made(gs, m) == gs'.(whiteToMove := gs.whiteToMove);
    assert KingSquare(Made(gs, m)) == Cached(gs', Waiting(gs'));
  }

  /** A legal move keeps a state of legal play one. */
  lemma LegalMoveKeepsInPlay(gs: GameState, m: Move)
    requires InPlay(gs) && m in Pseudo(gs) && Legal(gs, m)
    ensures InPlay(MakeMove(gs, m))
  {
    var gs' := MakeMove(gs, m);
    MakeKeepsPawnsOffFarRank(gs.board, m);
    MakeKeepsLogsAligned(gs, m);
    NoKingTaken(gs, m);
    KingFollowed(gs, m, White);
    KingFollowed(gs, m, Black);
    assert KingsCached(gs');
    MadeEpConsistent(gs, m);
    MadeRightsNeedHomeKing(gs, m);
    PassedNotExposed(gs, m);
  }

  // ---------------------------------------------------------------------------------------
  // The initial position

  /** A ray whose first square is off the board or holds a friendly piece is empty. */
  lemma RayShut(b: Board, whiteToMove: bool, r: int, c: int, dr: int, dc: int)
    requires OnBoard(r, c) && Blocked(b, whiteToMove, r + dr, c + dc, 1)
    ensures RayFrom(b, whiteToMove, r, c, dr, dc) == []
  {
  }

  /** A piece on white's back rank at the start is walled in by its own pieces. */
  lemma BackRankShut(c: int)
    requires 0 <= c < 8
    ensures BishopMoves(InitialBoard(), true, 7, c) == [] && RookMoves(InitialBoard(), true, 7, c) == []
  {
    var b := InitialBoard();
    assert c > 0 ==> Team(b, true, 7, c - 1) && Team(b, true, 6, c - 1);
    assert c < 7 ==> Team(b, true, 7, c + 1) && Team(b, true, 6, c + 1);
    assert Team(b, true, 6, c);
    RayShut(b, true, 7, c, 1, 1);
    RayShut(b, true, 7, c, 1, -1);
    RayShut(b, true, 7, c, -1, 1);
    RayShut(b, true, 7, c, -1, -1);
    RayShut(b, true, 7, c, 1, 0);
    RayShut(b, true, 7, c, -1, 0);
    RayShut(b, true, 7, c, 0, 1);
    RayShut(b, true, 7, c, 0, -1);
  }

  /** At the start, every move of white lands on row 4 or nearer white's side. */
  lemma InitialMovesStayBack(m: Move)
    requires m in PossibleMoves(InitialBoard(), true, None)
    ensures m.targetRow >= 4
  {
    var b := InitialBoard();
    PossibleMovesMembers(b, true, None, m);
    InitialPieceMovesStayBack(m.startRow, m.startCol, m);
  }

  /** White's pieces start on rows 6 and 7: pawns on row 6, the others on row 7. */
  lemma InitialWhitePieces(r: int, c: int)
    requires OnBoard(r, c) && Team(InitialBoard(), true, r, c)
    ensures IsPawn(At(InitialBoard(), r, c)) ==> r == 6
    ensures !IsPawn(At(InitialBoard(), r, c)) ==> r == 7
  {
  }

  lemma InitialPieceMovesStayBack(r: int, c: int, m: Move)
    requires OnBoard(r, c) && Team(InitialBoard(), true, r, c)
    requires m in PieceMoves(InitialBoard(), true, None, r, c)
    ensures m.targetRow >= 4
  {
    var b := InitialBoard();
    InitialWhitePieces(r, c);
    PieceMovesByKind(b, true, None, r, c);
    var k := At(b, r, c).kind;
    if k == Bishop || k == Rook || k == Queen {
      BackRankShut(c);
    }
  }

  /** The initial position is one of legal play. */
  lemma InitialInPlay()
    ensures InPlay(InitialState())
  {
    var gs := InitialState();
    if KingExposed(gs) {
      var m :| m in PossibleMoves(gs.board, true, None) && m.Target(0, 4);
      InitialMovesStayBack(m);
    }
  }

  // ---------------------------------------------------------------------------------------
  // The moves get_valid_moves returns

  /** Playing a move `get_valid_moves` as written returns, on the state it leaves, keeps the
      game in legal play. The as-written engine returns no castles, so this covers every
      move it offers. */
  lemma AsWrittenPlayKeepsInPlay(gs: GameState, m: Move)
    requires InPlay(gs) && m in GetValidMovesAsWritten(gs).1
    ensures MoveInBounds(m) && InPlay(MakeMove(GetValidMovesAsWritten(gs).0, m))
  {
    AsWrittenNeverCastles(gs, m);
    ValidMovesAreLegal(gs, false, m);
    LegalMoveKeepsInPlay(gs, m);
    FlagsAside(gs, GetValidMovesAsWritten(gs).0, m);
  }

  /** The same for the corrected engine and every move it returns apart from castles; the
      castling rights stay logged as well. */
  lemma FixedPlayKeepsInPlay(gs: GameState, m: Move)
    requires InPlay(gs) && RightsLogged(gs) && m in GetValidMoves(gs).1 && !m.isCastle
    ensures MoveInBounds(m) && InPlay(MakeMove(GetValidMoves(gs).0, m))
    ensures RightsLogged(MakeMove(GetValidMoves(gs).0, m))
  {
    ValidMovesAreLegal(gs, true, m);
    LegalMoveKeepsInPlay(gs, m);
    var g := GetValidMoves(gs).0;
    FlagsAside(gs, g, m);
    MadeRightsLogged(g, m);
  }

  /** `make_move` logs the rights it leaves. */
  lemma MadeRightsLogged(gs: GameState, m: Move)
    requires MoveInBounds(m)
    ensures RightsLogged(MakeMove(gs, m))
  {
  }

  /** The end-of-game flags play no part in legal play. */
  lemma FlagsAside(gs: GameState, g: GameState, m: Move)
    requires MoveInBounds(m) && InPlay(MakeMove(gs, m))
    requires g.(checkmate := gs.checkmate, stalemate := gs.stalemate) == gs
    ensures InPlay(MakeMove(g, m))
  {
    var a, b := MakeMove(gs, m), MakeMove(g, m);
    assert g.board == gs.board && g.whiteToMove == gs.whiteToMove && g.moveLog == gs.moveLog;
    assert g.wKing == gs.wKing && g.bKing == gs.bKing && g.rights == gs.rights && g.rightsLog == gs.rightsLog;
    InPlayIgnoresFlags(a, b);
  }

  lemma InPlayIgnoresFlags(a: GameState, b: GameState)
    requires a.board == b.board && a.whiteToMove == b.whiteToMove && a.moveLog == b.moveLog
    requires a.wKing == b.wKing && a.bKing == b.bKing && a.ep == b.ep
    requires a.rights == b.rights && a.rightsLog == b.rightsLog
    requires InPlay(a)
    ensures InPlay(b)
  {
    assert KingsCached(b);
  }

  // ---------------------------------------------------------------------------------------
  // Castles

  /** A castle `get_valid_moves` returns is the king's move two squares along its row, built
      on the board of the state. */
  lemma ValidCastleBuilt(gs: GameState, m: Move)
    requires Sane(gs) && RightsLogged(gs) && m in GetValidMoves(gs).1 && m.isCastle
    ensures var k := KingSquare(gs);
      && (m.targetCol == k.1 + 2 || m.targetCol == k.1 - 2)
      && OnBoard(k.0, k.1) && OnBoard(k.0, m.targetCol)
      && m == NewMove(k.0, k.1, k.0, m.targetCol, gs.board, false, true)
  {
    AttackedReadsPosition();
    assert GetValidMoves(gs) == GetValidMovesWith(gs, true, Attacked);
    CastleBuiltWith(gs, true, Attacked, m);
  }

  /** Whatever the attack test, a castle the engine returns comes from `castling` on the
      position the loop leaves, which is the one it started from. */
  lemma CastleBuiltWith(gs: GameState, fixed: bool, attacked: AttackTest, m: Move)
    requires Sane(gs) && (fixed ==> RightsLogged(gs)) && ReadsPosition(attacked)
    requires m in GetValidMovesWith(gs, fixed, attacked).1 && m.isCastle
    ensures var k := KingSquare(gs);
      && (m.targetCol == k.1 + 2 || m.targetCol == k.1 - 2)
      && OnBoard(k.0, k.1) && OnBoard(k.0, m.targetCol)
      && m == NewMove(k.0, k.1, k.0, m.targetCol, gs.board, false, true)
  {
    var t := TrialAll(gs, fixed, attacked);
    var g := MarkEnd(t.0, t.1, attacked);
    ValidMovesJoin(gs, fixed, attacked);
    TrialAllNoCastle(gs, fixed, attacked, m);
    MarkEndKeeps(t.0, t.1, attacked);
    assert m in KingCastles(g, attacked);
    CastleFromKing(g, gs, attacked, m);
  }

  /** A castle `castling` finds on a state with the same position is built on its board. */
  lemma CastleFromKing(g: GameState, gs: GameState, attacked: AttackTest, m: Move)
    requires CastleReady(g) && SamePosition(g, gs)
    requires m in KingCastles(g, attacked)
    ensures var k := KingSquare(gs);
      && (m.targetCol == k.1 + 2 || m.targetCol == k.1 - 2)
      && OnBoard(k.0, k.1) && OnBoard(k.0, m.targetCol)
      && m == NewMove(k.0, k.1, k.0, m.targetCol, gs.board, false, true)
  {
    assert KingSquare(g) == KingSquare(gs);
  }

  /** White: king e1 with the kingside right, rook h1. Black: king a8, pawn h2. */
  function TrapBoard(): Board
  {
    var e: Board := seq(8, _ => seq(8, _ => Empty));
    Put(Put(Put(Put(e, 7, 4, Piece(White, King)), 7, 7, Piece(White, Rook)), 6, 7, Piece(Black, Pawn)), 0, 0, Piece(Black, King))
  }

  lemma TrapBoardAt(r: int, c: int)
    requires OnBoard(r, c)
    ensures At(TrapBoard(), r, c) ==
      if (r, c) == (7, 4) then Piece(White, King)
      else if (r, c) == (7, 7) then Piece(White, Rook)
      else if (r, c) == (6, 7) then Piece(Black, Pawn)
      else if (r, c) == (0, 0) then Piece(Black, King)
      else Empty
  {
  }

  /** The position of `TrapBoard` with white to move, at the start of a log. */
  function TrapState(): GameState
  {
    var cr := CastleRights(true, false, false, false);
    GameState(TrapBoard(), true, [], (7, 4), (0, 0), false, false, None, cr, [cr])
  }

  /** White's castle e1-g1 on `TrapBoard`. */
  function TrapCastle(): Move
  {
    NewMove(7, 4, 7, 6, TrapBoard(), false, true)
  }

  lemma TrapSane()
    ensures Sane(TrapState()) && RightsLogged(TrapState())
  {
    var b := TrapBoard();
    forall r, c | OnBoard(r, c)
      ensures KingOn(b, White, r, c) <==> (r, c) == (7, 4)
      ensures KingOn(b, Black, r, c) <==> (r, c) == (0, 0)
    {
      TrapBoardAt(r, c);
    }
    forall c | 0 <= c < 8
      ensures At(b, 0, c) != Piece(White, Pawn) && At(b, 7, c) != Piece(Black, Pawn)
    {
      TrapBoardAt(0, c);
      TrapBoardAt(7, c);
    }
  }

  /** No move of black on `TrapBoard` lands on e1, f1 or g1: the pawn on h2 is blocked by
      the rook, and its diagonal square g1 is empty. */
  lemma TrapQuiet(tc: int)
    requires 4 <= tc <= 6
    ensures NoPawnOnFarRank(TrapBoard())
    ensures !Reaches(PossibleMoves(TrapBoard(), false, None), 7, tc)
  {
    TrapSane();
    var b := TrapBoard();
    forall m | m in PossibleMoves(b, false, None)
      ensures !m.Target(7, tc)
    {
      PossibleMovesMembers(b, false, None, m);
      TrapBlackMove(m.startRow, m.startCol, tc, m);
    }
  }

  /** One black piece of `TrapBoard` at a time: the king on a8 stays near it, and the pawn
      on h2 has neither its push nor a capture onto the first rank. */
  lemma TrapBlackMove(r: int, c: int, tc: int, m: Move)
    requires 4 <= tc <= 6
    requires NoPawnOnFarRank(TrapBoard()) && OnBoard(r, c) && Team(TrapBoard(), false, r, c)
    requires m in PieceMoves(TrapBoard(), false, None, r, c)
    ensures !m.Target(7, tc)
  {
    var b := TrapBoard();
    TrapBoardAt(r, c);
    PieceMovesByKind(b, false, None, r, c);
    if (r, c) == (6, 7) {
      TrapBoardAt(7, 7);
      TrapBoardAt(7, tc);
      PawnMovesReach(b, false, None, 6, 7, 7, tc);
    }
  }

  /** White's moves on `TrapBoard` stay on its first rank, the h-file and next to its king,
      so black's king is not exposed. */
  lemma TrapInPlay()
    ensures InPlay(TrapState())
  {
    TrapSane();
    var b := TrapBoard();
    forall m | m in PossibleMoves(b, true, None)
      ensures !m.Target(0, 0)
    {
      PossibleMovesMembers(b, true, None, m);
      TrapWhiteMove(m.startRow, m.startCol, m);
    }
    assert Cached(TrapState(), Waiting(TrapState())) == (0, 0);
  }

  /** One white piece of `TrapBoard` at a time: the king on e1 moves one square, the rook
      on h1 along the first rank or the h-file. */
  lemma TrapWhiteMove(r: int, c: int, m: Move)
    requires NoPawnOnFarRank(TrapBoard()) && OnBoard(r, c) && Team(TrapBoard(), true, r, c)
    requires m in PieceMoves(TrapBoard(), true, None, r, c)
    ensures !m.Target(0, 0)
  {
    var b := TrapBoard();
    TrapBoardAt(r, c);
    PieceMovesByKind(b, true, None, r, c);
    if (r, c) == (7, 7) {
      RookDistinct(b, true, 7, 7);
    }
  }

  /** Castling ignores a pawn's attack on the square the king lands on. `possible_moves`
      generates a pawn's diagonal move only onto an occupied square, so `square_under_attack`
      finds g1 safe while the pawn on h2 guards it. The corrected engine offers the castle;
      after it, the pawn can take the king. */
  lemma CastleIntoPawnAttack()
    ensures InPlay(TrapState()) && RightsLogged(TrapState())
    ensures TrapCastle() in GetValidMoves(TrapState()).1 && MoveInBounds(TrapCastle())
    ensures var after := MakeMove(GetValidMoves(TrapState()).0, TrapCastle());
      NoPawnOnFarRank(after.board) && KingExposed(after)
  {
    TrapCastleOffered();
    TrapExposed();
    ExposedIgnoresFlags(TrapState(), GetValidMoves(TrapState()).0, TrapCastle());
  }

  /** The corrected engine offers the castle e1-g1 on `TrapState`. */
  lemma TrapCastleOffered()
    ensures InPlay(TrapState()) && RightsLogged(TrapState())
    ensures TrapCastle() in GetValidMoves(TrapState()).1
  {
    var gs := TrapState();
    TrapInPlay();
    TrapPathClear();
    FixedKingsideCastles(gs);
    assert KingSquare(gs) == (7, 4);
    var m :| m in GetValidMoves(gs).1 && m.isCastle && m.Start(7, 4) && m.Target(7, 6);
    ValidCastleBuilt(gs, m);
  }

  /** White holds the kingside right, and e1, f1 and g1 are safe by `square_under_attack`,
      with f1 and g1 empty. */
  lemma TrapPathClear()
    ensures Sane(TrapState()) && RightsLogged(TrapState()) && KingsideRight(TrapState())
    ensures !Attacked(TrapState(), 7, 4) && KingsidePath(TrapState(), Attacked, 7, 4)
  {
    TrapSane();
    TrapQuiet(4);
    TrapQuiet(5);
    TrapQuiet(6);
    TrapBoardAt(7, 5);
    TrapBoardAt(7, 6);
  }

  /** Whether a made move exposes a king does not depend on the end-of-game flags. */
  lemma ExposedIgnoresFlags(gs: GameState, g: GameState, m: Move)
    requires MoveInBounds(m) && g.(checkmate := gs.checkmate, stalemate := gs.stalemate) == gs
    requires NoPawnOnFarRank(MakeMove(gs, m).board) && KingExposed(MakeMove(gs, m))
    ensures NoPawnOnFarRank(MakeMove(g, m).board) && KingExposed(MakeMove(g, m))
  {
    assert g.board == gs.board && g.whiteToMove == gs.whiteToMove;
    assert g.wKing == gs.wKing && g.bKing == gs.bKing;
  }

  /** After the castle, the pawn on h2 can take the king on g1. */
  lemma TrapExposed()
    ensures MoveInBounds(TrapCastle())
    ensures var after := MakeMove(TrapState(), TrapCastle());
      NoPawnOnFarRank(after.board) && KingExposed(after)
  {
    TrapAfterBoard();
    var after := MakeMove(TrapState(), TrapCastle());
    var b' := after.board;
    assert after.wKing == (7, 6) && !after.whiteToMove && after.ep == None;
    PawnTakesKing(b');
  }

  /** The castle moves the king to g1 and leaves the pawn on h2. */
  lemma TrapAfterBoard()
    ensures MoveInBounds(TrapCastle())
    ensures var b' := MakeBoard(TrapBoard(), TrapCastle());
      && NoPawnOnFarRank(b') && At(b', 6, 7) == Piece(Black, Pawn) && At(b', 7, 6) == Piece(White, King)
  {
    var m := TrapCastle();
    var b := TrapBoard();
    TrapBoardAt(7, 4);
    TrapBoardAt(7, 7);
    TrapBoardAt(6, 7);
    TrapSane();
    assert !Touched(m, 6, 7);
    MakeKeepsPawnsOffFarRank(b, m);
  }

  /** A black pawn on h2 with the white king on g1 takes it. */
  lemma PawnTakesKing(b: Board)
    requires NoPawnOnFarRank(b) && At(b, 6, 7) == Piece(Black, Pawn) && At(b, 7, 6) == Piece(White, King)
    ensures Reaches(PossibleMoves(b, false, None), 7, 6)
  {
    PawnMovesReach(b, false, None, 6, 7, 7, 6);
    var p :| p in PawnMoves(b, false, None, 6, 7) && p.Target(7, 6);
    PawnPieceMoves(b, false, None, 6, 7);
    PossibleMovesMembers(b, false, None, p);
  }
}
