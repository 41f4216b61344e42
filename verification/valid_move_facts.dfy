/** What `get_valid_moves` returns: exactly the legal pseudo-legal moves, the end-of-game
    flags, and the castles. With `undo_move` as written the castles never appear. */
module ValidMoveFacts {
  import opened Options
  import opened Pieces
  import opened Boards
  import opened Moves
  import opened Castling
  import opened Generator
  import opened GeneratorFacts
  import opened GameStates
  import opened ValidMoves

  /** The pseudo-legal moves of the side to move. */
  function Pseudo(gs: GameState): seq<Move>
    requires NoPawnOnFarRank(gs.board)
  {
    PossibleMoves(gs.board, gs.whiteToMove, gs.ep)
  }

  /** No pseudo-legal move is legal. */
  predicate Stuck(gs: GameState)
    requires NoPawnOnFarRank(gs.board)
  {
    forall m :: m in Pseudo(gs) ==> !Legal(gs, m)
  }

  /** No pseudo-legal move passes the attack test. */
  predicate StuckWith(gs: GameState, attacked: AttackTest)
    requires NoPawnOnFarRank(gs.board)
  {
    forall m :: m in Pseudo(gs) ==> !Passes(gs, attacked, m)
  }

  // ---------------------------------------------------------------------------------------
  // The loop over every pseudo-legal move

  /** The loop keeps exactly the moves that pass, in generation order. */
  lemma TrialAllFilters(gs: GameState, fixed: bool, attacked: AttackTest)
    requires Sane(gs) && ReadsPosition(attacked)
    ensures TrialAll(gs, fixed, attacked).1 == Keep(gs, attacked, Pseudo(gs))
  {
    var moves := Pseudo(gs);
    AllPlayable(gs);
    PossibleMovesDistinct(gs.board, gs.whiteToMove, gs.ep);
    TrialListFilters(gs, attacked, moves, fixed);
    assert TrialAll(gs, fixed, attacked) == Trial(gs, attacked, moves, |moves|, fixed);
  }

  /** The whole loop over any list of distinct playable moves keeps the ones that pass. */
  lemma TrialListFilters(gs: GameState, attacked: AttackTest, moves: seq<Move>, fixed: bool)
    requires TrialReady(gs, moves, |moves|) && DistinctIDs(moves) && ReadsPosition(attacked)
    ensures Trial(gs, attacked, moves, |moves|, fixed).1 == Keep(gs, attacked, moves)
  {
    TrialFilters(gs, attacked, moves, |moves|, fixed);
    assert moves[..|moves|] == moves && moves[|moves|..] == [];
  }

  /** The loop leaves the en-passant square as it found it or cleared. */
  lemma TrialAllEp(gs: GameState, fixed: bool, attacked: AttackTest)
    requires Sane(gs)
    ensures TrialAll(gs, fixed, attacked).0.ep == gs.ep || TrialAll(gs, fixed, attacked).0.ep == None
  {
    var moves := Pseudo(gs);
    AllPlayable(gs);
    if |moves| > 0 {
      PossibleMovesDistinct(gs.board, gs.whiteToMove, gs.ep);
      TrialEp(gs, attacked, moves, |moves|, fixed);
      assert Generated(gs.board, gs.whiteToMove, gs.ep, moves[0]);
    }
  }

  /** The loop's `undo_move` clears both flags, unless there was nothing to try. */
  lemma TrialAllFlags(gs: GameState, fixed: bool, attacked: AttackTest)
    requires Sane(gs)
    ensures Pseudo(gs) == [] ==> TrialAll(gs, fixed, attacked).0 == gs
    ensures Pseudo(gs) != [] ==> !TrialAll(gs, fixed, attacked).0.checkmate && !TrialAll(gs, fixed, attacked).0.stalemate
  {
  }

  /** With `undo_move` as written the loop leaves the rights as if every pseudo-legal move
      had been played. */
  lemma TrialAllDrift(gs: GameState, attacked: AttackTest)
    requires Sane(gs)
    ensures TrialAll(gs, false, attacked).0.rights == DriftedRights(gs.rights, Pseudo(gs))
  {
    var moves := Pseudo(gs);
    AllPlayable(gs);
    PossibleMovesDistinct(gs.board, gs.whiteToMove, gs.ep);
    TrialDrift(gs, attacked, moves, |moves|);
    assert moves[..|moves|] == moves;
    DriftIsDrifted(gs.rights, moves);
  }

  /** Clearing the en-passant square changes no attack on another square. */
  lemma AttackedAfterTrial(g: GameState, gs: GameState, attacked: AttackTest, r: int, c: int)
    requires ReadsPosition(attacked) && EpBlind(attacked)
    requires g.board == gs.board && g.whiteToMove == gs.whiteToMove
    requires g.ep == gs.ep || g.ep == None
    requires gs.ep != Some((r, c))
    ensures attacked(g, r, c) == attacked(gs, r, c)
  {
    var cleared := gs.(ep := None);
    if g.ep != gs.ep {
      assert attacked(cleared, r, c) == attacked(gs, r, c);
    }
    assert attacked(g, r, c) == attacked(if g.ep == gs.ep then gs else cleared, r, c);
  }

  /** A filter keeps nothing exactly when no element passes. */
  lemma KeepEmpty(gs: GameState, attacked: AttackTest, ms: seq<Move>)
    ensures |Keep(gs, attacked, ms)| == 0 <==> forall m :: m in ms ==> !Passes(gs, attacked, m)
  {
    var ks := Keep(gs, attacked, ms);
    if |ks| > 0 {
      assert ks[0] in ks;
    }
  }

  /** The kept moves are no castles. */
  lemma KeptAreNoCastles(gs: GameState, attacked: AttackTest, ms: seq<Move>, r: int, c: int, tc: int)
    ensures !CastlesTo(Keep(gs, attacked, ms), r, c, tc)
  {
  }

  lemma CastlesToAppend(a: seq<Move>, b: seq<Move>, r: int, c: int, tc: int)
    ensures CastlesTo(a + b, r, c, tc) <==> CastlesTo(a, r, c, tc) || CastlesTo(b, r, c, tc)
  {
    if CastlesTo(a + b, r, c, tc) {
      var m :| m in a + b && m.isCastle && m.Start(r, c) && m.Target(r, tc);
      assert m in a || m in b;
    }
    if CastlesTo(b, r, c, tc) {
      var m :| m in b && m.isCastle && m.Start(r, c) && m.Target(r, tc);
      assert m in a + b;
    }
  }

  /** The en-passant square is empty, so it is never the king's. */
  lemma EpNotKing(gs: GameState)
    requires Sane(gs)
    ensures gs.ep != Some(KingSquare(gs))
  {
    KingStands(gs);
  }

  /** A king holding a right stands on its home row, where no en-passant square lies. */
  lemma EpOffHomeRow(gs: GameState, c: int)
    requires Sane(gs) && (KingsideRight(gs) || QueensideRight(gs))
    ensures gs.ep != Some((KingSquare(gs).0, c))
  {
  }

  // ---------------------------------------------------------------------------------------
  // get_valid_moves under any attack test that reads the position

  /** Apart from castles, the moves returned are exactly the pseudo-legal moves that pass. */
  lemma ValidMovesPass(gs: GameState, fixed: bool, attacked: AttackTest, m: Move)
    requires Sane(gs) && (fixed ==> RightsLogged(gs)) && ReadsPosition(attacked)
    ensures m in GetValidMovesWith(gs, fixed, attacked).1 && !m.isCastle <==>
      m in Pseudo(gs) && Passes(gs, attacked, m)
  {
    var t := TrialAll(gs, fixed, attacked);
    var g := MarkEnd(t.0, t.1, attacked);
    CastleReadyWithin(gs, g);
    assert GetValidMovesWith(gs, fixed, attacked).1 == t.1 + KingCastles(g, attacked);
    TrialAllFilters(gs, fixed, attacked);
  }

  /** The loop keeps nothing exactly when no pseudo-legal move passes. */
  lemma TrialAllStuck(gs: GameState, fixed: bool, attacked: AttackTest)
    requires Sane(gs) && ReadsPosition(attacked)
    ensures |TrialAll(gs, fixed, attacked).1| == 0 <==> StuckWith(gs, attacked)
  {
    TrialAllFilters(gs, fixed, attacked);
    KeepEmpty(gs, attacked, Pseudo(gs));
  }

  /** The state the loop leaves has its king attacked exactly when the original had. */
  lemma TrialAllChecked(gs: GameState, fixed: bool, attacked: AttackTest)
    requires Sane(gs) && ReadsPosition(attacked) && EpBlind(attacked)
    ensures Checked(TrialAll(gs, fixed, attacked).0, attacked) == Checked(gs, attacked)
  {
    var t := TrialAll(gs, fixed, attacked);
    var k := KingSquare(gs);
    TrialAllEp(gs, fixed, attacked);
    EpNotKing(gs);
    AttackedAfterTrial(t.0, gs, attacked, k.0, k.1);
  }

  /** The flags `get_valid_moves` returns are those the end-of-game check sets on the state
      the loop left. */
  lemma FlagsJoin(gs: GameState, fixed: bool, attacked: AttackTest)
    requires Sane(gs) && (fixed ==> RightsLogged(gs))
    ensures var t := TrialAll(gs, fixed, attacked);
      var res := GetValidMovesWith(gs, fixed, attacked).0;
      && (res.checkmate <==> (|t.1| == 0 && Checked(t.0, attacked)) || t.0.checkmate)
      && (res.stalemate <==> (|t.1| == 0 && !Checked(t.0, attacked)) || t.0.stalemate)
  {
    var t := TrialAll(gs, fixed, attacked);
    var g := MarkEnd(t.0, t.1, attacked);
    CastleReadyWithin(gs, g);
    assert GetValidMovesWith(gs, fixed, attacked).0 == g.(ep := gs.ep, rights := gs.rights);
  }

  lemma ValidFlagsWith(gs: GameState, fixed: bool, attacked: AttackTest)
    requires Sane(gs) && (fixed ==> RightsLogged(gs)) && ReadsPosition(attacked) && EpBlind(attacked)
    ensures var res := GetValidMovesWith(gs, fixed, attacked).0;
      && (res.checkmate <==> (StuckWith(gs, attacked) && Checked(gs, attacked)) || (Pseudo(gs) == [] && gs.checkmate))
      && (res.stalemate <==> (StuckWith(gs, attacked) && !Checked(gs, attacked)) || (Pseudo(gs) == [] && gs.stalemate))
  {
    FlagsJoin(gs, fixed, attacked);
    TrialAllStuck(gs, fixed, attacked);
    TrialAllChecked(gs, fixed, attacked);
    TrialAllFlags(gs, fixed, attacked);
  }

  /** With `undo_move` as written, a king with an empty square beside it on its row loses
      both castling rights during the loop: the step onto that square is tried, and it spoils
      both rights. */
  lemma KingStepSpoilsRights(gs: GameState, attacked: AttackTest)
    requires Sane(gs)
    ensures var k := KingSquare(gs);
      ((OnBoard(k.0, k.1 + 1) && IsEmpty(gs.board, k.0, k.1 + 1))
       || (OnBoard(k.0, k.1 - 1) && IsEmpty(gs.board, k.0, k.1 - 1))) ==>
        !KingsideRight(TrialAll(gs, false, attacked).0) && !QueensideRight(TrialAll(gs, false, attacked).0)
  {
    var k := KingSquare(gs);
    var dc := if OnBoard(k.0, k.1 + 1) && IsEmpty(gs.board, k.0, k.1 + 1) then 1 else -1;
    if OnBoard(k.0, k.1 + dc) && IsEmpty(gs.board, k.0, k.1 + dc) {
      KingStands(gs);
      var km := KingStepTried(gs, dc);
      TrialAllDrift(gs, attacked);
      KingMoveDrifts(gs.rights, Pseudo(gs), km, gs.whiteToMove);
    }
  }

  /** The king's step onto an empty neighbouring square of its row is among the pseudo-legal
      moves. */
  lemma KingStepTried(gs: GameState, dc: int) returns (km: Move)
    requires NoPawnOnFarRank(gs.board) && (dc == 1 || dc == -1)
    requires OnBoard(KingSquare(gs).0, KingSquare(gs).1)
    requires At(gs.board, KingSquare(gs).0, KingSquare(gs).1) == Piece(SideToMove(gs.whiteToMove), King)
    requires OnBoard(KingSquare(gs).0, KingSquare(gs).1 + dc)
    requires IsEmpty(gs.board, KingSquare(gs).0, KingSquare(gs).1 + dc)
    ensures km in Pseudo(gs) && km.pieceMoved == Piece(SideToMove(gs.whiteToMove), King)
  {
    var k := KingSquare(gs);
    KingStepGenerated(gs.board, gs.whiteToMove, gs.ep, k.0, k.1, k.0, k.1 + dc);
    km :| km in Pseudo(gs) && km.pieceMoved == Piece(SideToMove(gs.whiteToMove), King);
  }

  /** A tried king move wipes both of its colour's drifted rights. */
  lemma KingMoveDrifts(cr: CastleRights, ms: seq<Move>, km: Move, whiteToMove: bool)
    requires km in ms && km.pieceMoved == Piece(SideToMove(whiteToMove), King)
    ensures whiteToMove ==> !DriftedRights(cr, ms).wks && !DriftedRights(cr, ms).wqs
    ensures !whiteToMove ==> !DriftedRights(cr, ms).bks && !DriftedRights(cr, ms).bqs
  {
    if whiteToMove {
      assert LosesWks(km) && LosesWqs(km);
    } else {
      assert LosesBks(km) && LosesBqs(km);
    }
  }

  /** The moves `get_valid_moves` returns: those the loop kept, then the castles found from
      the state the loop left. */
  lemma ValidMovesJoin(gs: GameState, fixed: bool, attacked: AttackTest)
    requires Sane(gs) && (fixed ==> RightsLogged(gs))
    ensures CastleReady(MarkEnd(TrialAll(gs, fixed, attacked).0, TrialAll(gs, fixed, attacked).1, attacked))
    ensures GetValidMovesWith(gs, fixed, attacked).1 == TrialAll(gs, fixed, attacked).1
      + KingCastles(MarkEnd(TrialAll(gs, fixed, attacked).0, TrialAll(gs, fixed, attacked).1, attacked), attacked)
  {
    var t := TrialAll(gs, fixed, attacked);
    CastleReadyWithin(gs, MarkEnd(t.0, t.1, attacked));
  }

  /** The loop keeps no castle. */
  lemma TrialAllNoCastle(gs: GameState, fixed: bool, attacked: AttackTest, m: Move)
    requires Sane(gs) && ReadsPosition(attacked)
    ensures m in TrialAll(gs, fixed, attacked).1 ==> !m.isCastle
  {
    TrialAllFilters(gs, fixed, attacked);
  }

  /** Each right the state holds is blocked by a piece on the square beside the king. */
  predicate FirstSquaresTaken(g: GameState)
    requires CastleReady(g)
  {
    && (KingsideRight(g) ==> !IsEmpty(g.board, KingSquare(g).0, KingSquare(g).1 + 1))
    && (QueensideRight(g) ==> !IsEmpty(g.board, KingSquare(g).0, KingSquare(g).1 - 1))
  }

  /** `castling` finds nothing when each right it holds is blocked by a piece beside the
      king. */
  lemma NoCastlesLeft(g: GameState, attacked: AttackTest)
    requires CastleReady(g) && FirstSquaresTaken(g)
    ensures KingCastles(g, attacked) == []
  {
  }

  /** The end-of-game check touches neither the position nor the rights. */
  lemma MarkEndKeeps(g: GameState, kept: seq<Move>, attacked: AttackTest)
    ensures SamePosition(MarkEnd(g, kept, attacked), g)
    ensures MarkEnd(g, kept, attacked).rights == g.rights
  {
  }

  /** The state the loop and the end-of-game check leave. */
  function Ended(gs: GameState, fixed: bool, attacked: AttackTest): GameState
    requires Sane(gs)
  {
    var t := TrialAll(gs, fixed, attacked);
    MarkEnd(t.0, t.1, attacked)
  }

  /** With `undo_move` as written the loop leaves no right whose first square is free. */
  lemma TrialAllBlocksCastles(gs: GameState, attacked: AttackTest)
    requires Sane(gs)
    ensures CastleReady(Ended(gs, false, attacked)) && FirstSquaresTaken(Ended(gs, false, attacked))
  {
    var t := TrialAll(gs, false, attacked);
    MarkEndKeeps(t.0, t.1, attacked);
    var g := Ended(gs, false, attacked);
    CastleReadyWithin(gs, g);
    assert KingSquare(g) == KingSquare(gs);
    assert KingsideRight(g) == KingsideRight(t.0) && QueensideRight(g) == QueensideRight(t.0);
    KingStepSpoilsRights(gs, attacked);
  }

  /** With `undo_move` as written no castle is ever returned. */
  lemma NeverCastlesWith(gs: GameState, attacked: AttackTest, m: Move)
    requires Sane(gs) && ReadsPosition(attacked)
    ensures m in GetValidMovesWith(gs, false, attacked).1 ==> !m.isCastle
  {
    var t := TrialAll(gs, false, attacked);
    var g := MarkEnd(t.0, t.1, attacked);
    ValidMovesJoin(gs, false, attacked);
    TrialAllNoCastle(gs, false, attacked, m);
    TrialAllBlocksCastles(gs, attacked);
    NoCastlesLeft(g, attacked);
  }

  /** The castles among the returned moves are those `castling` finds from the state the
      loop left, since the loop keeps no castle. */
  lemma CastlesThroughJoin(gs: GameState, fixed: bool, attacked: AttackTest, tc: int)
    requires Sane(gs) && (fixed ==> RightsLogged(gs)) && ReadsPosition(attacked)
    ensures var t := TrialAll(gs, fixed, attacked);
      var g := MarkEnd(t.0, t.1, attacked);
      && CastleReady(g)
      && (CastlesTo(GetValidMovesWith(gs, fixed, attacked).1, KingSquare(gs).0, KingSquare(gs).1, tc)
          <==> CastlesTo(KingCastles(g, attacked), KingSquare(gs).0, KingSquare(gs).1, tc))
  {
    var t := TrialAll(gs, fixed, attacked);
    var k := KingSquare(gs);
    ValidMovesJoin(gs, fixed, attacked);
    var g := MarkEnd(t.0, t.1, attacked);
    CastlesToAppend(t.1, KingCastles(g, attacked), k.0, k.1, tc);
    if CastlesTo(t.1, k.0, k.1, tc) {
      var m :| m in t.1 && m.isCastle && m.Start(k.0, k.1) && m.Target(k.0, tc);
      TrialAllNoCastle(gs, fixed, attacked, m);
    }
  }

  /** With the corrected `undo_move` the loop leaves the position and the rights as it found
      them, and the en-passant square as it was or cleared. */
  lemma FixedTrialState(gs: GameState, attacked: AttackTest)
    requires Sane(gs) && RightsLogged(gs)
    ensures var t := TrialAll(gs, true, attacked);
      var g := MarkEnd(t.0, t.1, attacked);
      && SamePosition(g, gs) && g.rights == gs.rights && (g.ep == gs.ep || g.ep == None)
  {
    TrialAllEp(gs, true, attacked);
  }

  /** `castling` finds the same castles in a state whose en-passant square was cleared as in
      the original. */
  lemma CastlesAgree(g: GameState, gs: GameState, attacked: AttackTest)
    requires Sane(gs) && ReadsPosition(attacked) && EpBlind(attacked)
    requires SamePosition(g, gs) && g.rights == gs.rights && (g.ep == gs.ep || g.ep == None)
    ensures CastleReady(g)
    ensures var k := KingSquare(gs);
      CastlesTo(KingCastles(g, attacked), k.0, k.1, k.1 + 2) <==>
        KingsideRight(gs) && !attacked(gs, k.0, k.1) && KingsidePath(gs, attacked, k.0, k.1)
    ensures var k := KingSquare(gs);
      CastlesTo(KingCastles(g, attacked), k.0, k.1, k.1 - 2) <==>
        QueensideRight(gs) && !attacked(gs, k.0, k.1) && QueensidePath(gs, attacked, k.0, k.1)
  {
    var k := KingSquare(gs);
    CastleReadyWithin(gs, g);
    if KingsideRight(gs) || QueensideRight(gs) {
      EpOffHomeRow(gs, k.1);
      AttackedAfterTrial(g, gs, attacked, k.0, k.1);
    }
    if KingsideRight(gs) {
      EpOffHomeRow(gs, k.1 + 1);
      EpOffHomeRow(gs, k.1 + 2);
      AttackedAfterTrial(g, gs, attacked, k.0, k.1 + 1);
      AttackedAfterTrial(g, gs, attacked, k.0, k.1 + 2);
    }
    if QueensideRight(gs) {
      EpOffHomeRow(gs, k.1 - 1);
      EpOffHomeRow(gs, k.1 - 2);
      AttackedAfterTrial(g, gs, attacked, k.0, k.1 - 1);
      AttackedAfterTrial(g, gs, attacked, k.0, k.1 - 2);
    }
  }

  lemma KingsideCastlesWith(gs: GameState, attacked: AttackTest)
    requires Sane(gs) && RightsLogged(gs) && ReadsPosition(attacked) && EpBlind(attacked)
    ensures var k := KingSquare(gs);
      CastlesTo(GetValidMovesWith(gs, true, attacked).1, k.0, k.1, k.1 + 2) <==>
        KingsideRight(gs) && !attacked(gs, k.0, k.1) && KingsidePath(gs, attacked, k.0, k.1)
  {
    var t := TrialAll(gs, true, attacked);
    var g := MarkEnd(t.0, t.1, attacked);
    CastlesThroughJoin(gs, true, attacked, KingSquare(gs).1 + 2);
    FixedTrialState(gs, attacked);
    CastlesAgree(g, gs, attacked);
  }

  lemma QueensideCastlesWith(gs: GameState, attacked: AttackTest)
    requires Sane(gs) && RightsLogged(gs) && ReadsPosition(attacked) && EpBlind(attacked)
    ensures var k := KingSquare(gs);
      CastlesTo(GetValidMovesWith(gs, true, attacked).1, k.0, k.1, k.1 - 2) <==>
        QueensideRight(gs) && !attacked(gs, k.0, k.1) && QueensidePath(gs, attacked, k.0, k.1)
  {
    var t := TrialAll(gs, true, attacked);
    var g := MarkEnd(t.0, t.1, attacked);
    CastlesThroughJoin(gs, true, attacked, KingSquare(gs).1 - 2);
    FixedTrialState(gs, attacked);
    CastlesAgree(g, gs, attacked);
  }

  // ---------------------------------------------------------------------------------------
  // get_valid_moves with the engine's own attack test

  /** Apart from castles, `get_valid_moves` returns exactly the legal pseudo-legal moves. */
  lemma ValidMovesAreLegal(gs: GameState, fixed: bool, m: Move)
    requires Sane(gs) && (fixed ==> RightsLogged(gs))
    ensures m in GetValidMovesWith(gs, fixed, Attacked).1 && !m.isCastle <==> m in Pseudo(gs) && Legal(gs, m)
  {
    AttackedReadsPosition();
    ValidMovesPass(gs, fixed, Attacked, m);
  }

  /** The end-of-game flags: with no legal move the side to move is checkmated if its king
      is in check and stalemated otherwise; with a legal move neither flag is set. Flags a
      state already carried survive only when there was no move to try, since every
      `undo_move` of the loop clears them. */
  lemma ValidMovesFlags(gs: GameState, fixed: bool)
    requires Sane(gs) && (fixed ==> RightsLogged(gs))
    ensures var res := GetValidMovesWith(gs, fixed, Attacked).0;
      && (res.checkmate <==> (Stuck(gs) && InCheck(gs)) || (Pseudo(gs) == [] && gs.checkmate))
      && (res.stalemate <==> (Stuck(gs) && !InCheck(gs)) || (Pseudo(gs) == [] && gs.stalemate))
  {
    AttackedReadsPosition();
    AttackedEpBlind();
    ValidFlagsWith(gs, fixed, Attacked);
    StuckUnderAttacked(gs);
    CheckedIsInCheck(gs);
  }

  lemma StuckUnderAttacked(gs: GameState)
    requires NoPawnOnFarRank(gs.board)
    ensures Stuck(gs) <==> StuckWith(gs, Attacked)
  {
    assert forall m :: Legal(gs, m) == Passes(gs, Attacked, m);
  }

  /** With `undo_move` as written, `get_valid_moves` never returns a castle. */
  lemma AsWrittenNeverCastles(gs: GameState, m: Move)
    requires Sane(gs)
    ensures m in GetValidMovesAsWritten(gs).1 ==> !m.isCastle
  {
    AttackedReadsPosition();
    NeverCastlesWith(gs, Attacked, m);
  }

  /** With the corrected `undo_move`, a kingside castle is offered exactly when the side to
      move holds the right, its king is not attacked, and the two squares toward the rook
      are empty and not attacked. */
  lemma FixedKingsideCastles(gs: GameState)
    requires Sane(gs) && RightsLogged(gs)
    ensures var k := KingSquare(gs);
      CastlesTo(GetValidMoves(gs).1, k.0, k.1, k.1 + 2) <==>
        KingsideRight(gs) && !Attacked(gs, k.0, k.1) && KingsidePath(gs, Attacked, k.0, k.1)
  {
    AttackedReadsPosition();
    AttackedEpBlind();
    KingsideCastlesWith(gs, Attacked);
  }

  /** With the corrected `undo_move`, a queenside castle is offered exactly when the side to
      move holds the right, its king is not attacked, the three squares toward the rook are
      empty and the two the king crosses are not attacked. */
  lemma FixedQueensideCastles(gs: GameState)
    requires Sane(gs) && RightsLogged(gs)
    ensures var k := KingSquare(gs);
      CastlesTo(GetValidMoves(gs).1, k.0, k.1, k.1 - 2) <==>
        QueensideRight(gs) && !Attacked(gs, k.0, k.1) && QueensidePath(gs, Attacked, k.0, k.1)
  {
    AttackedReadsPosition();
    AttackedEpBlind();
    QueensideCastlesWith(gs, Attacked);
  }
}
