/** `CastleRights` and `update_castle_rights`: the four castling flags and how a move
    clears them. */
module Castling {
  import opened Pieces
  import opened Moves

  /** The flags in the constructor's order: white kingside, black kingside, white
      queenside, black queenside. */
  datatype CastleRights = CastleRights(wks: bool, bks: bool, wqs: bool, bqs: bool)

  /** Every flag of `after` is set only if it was set in `before`. */
  predicate Within(after: CastleRights, before: CastleRights)
  {
    (after.wks ==> before.wks) && (after.bks ==> before.bks)
    && (after.wqs ==> before.wqs) && (after.bqs ==> before.bqs)
  }

  /** The white kingside right is lost when the white king moves, when the rook leaves h1,
      or when a rook standing on h1 is captured; likewise for the other three. */
  predicate LosesWks(m: Move)
  {
    m.pieceMoved == Piece(White, King) || (m.pieceMoved == Piece(White, Rook) && m.Start(7, 7))
    || (m.pieceCaptured == Piece(White, Rook) && m.Target(7, 7))
  }

  predicate LosesWqs(m: Move)
  {
    m.pieceMoved == Piece(White, King) || (m.pieceMoved == Piece(White, Rook) && m.Start(7, 0))
    || (m.pieceCaptured == Piece(White, Rook) && m.Target(7, 0))
  }

  predicate LosesBks(m: Move)
  {
    m.pieceMoved == Piece(Black, King) || (m.pieceMoved == Piece(Black, Rook) && m.Start(0, 7))
    || (m.pieceCaptured == Piece(Black, Rook) && m.Target(0, 7))
  }

  predicate LosesBqs(m: Move)
  {
    m.pieceMoved == Piece(Black, King) || (m.pieceMoved == Piece(Black, Rook) && m.Start(0, 0))
    || (m.pieceCaptured == Piece(Black, Rook) && m.Target(0, 0))
  }

  /** The first half of `update_castle_rights`: what the moved piece clears. */
  function ClearByMover(cr: CastleRights, m: Move): (cr': CastleRights)
    ensures cr'.wks <==> cr.wks && !(m.pieceMoved == Piece(White, King) || (m.pieceMoved == Piece(White, Rook) && m.Start(7, 7)))
    ensures cr'.wqs <==> cr.wqs && !(m.pieceMoved == Piece(White, King) || (m.pieceMoved == Piece(White, Rook) && m.Start(7, 0)))
    ensures cr'.bks <==> cr.bks && !(m.pieceMoved == Piece(Black, King) || (m.pieceMoved == Piece(Black, Rook) && m.Start(0, 7)))
    ensures cr'.bqs <==> cr.bqs && !(m.pieceMoved == Piece(Black, King) || (m.pieceMoved == Piece(Black, Rook) && m.Start(0, 0)))
  {
    if m.pieceMoved == Piece(White, King) then cr.(wks := false, wqs := false)
    else if m.pieceMoved == Piece(Black, King) then cr.(bks := false, bqs := false)
    else if m.pieceMoved == Piece(White, Rook) then
      (if m.startRow == 7 then
         (if m.startCol == 0 then cr.(wqs := false) else if m.startCol == 7 then cr.(wks := false) else cr)
       else cr)
    else if m.pieceMoved == Piece(Black, Rook) then
      (if m.startRow == 0 then
         (if m.startCol == 0 then cr.(bqs := false) else if m.startCol == 7 then cr.(bks := false) else cr)
       else cr)
    else cr
  }

  /** The second half: what the captured piece clears. */
  function ClearByCapture(cr: CastleRights, m: Move): (cr': CastleRights)
    ensures cr'.wks <==> cr.wks && !(m.pieceCaptured == Piece(White, Rook) && m.Target(7, 7))
    ensures cr'.wqs <==> cr.wqs && !(m.pieceCaptured == Piece(White, Rook) && m.Target(7, 0))
    ensures cr'.bks <==> cr.bks && !(m.pieceCaptured == Piece(Black, Rook) && m.Target(0, 7))
    ensures cr'.bqs <==> cr.bqs && !(m.pieceCaptured == Piece(Black, Rook) && m.Target(0, 0))
  {
    if m.pieceCaptured == Piece(White, Rook) then
      (if m.targetRow == 7 then
         (if m.targetCol == 0 then cr.(wqs := false) else if m.targetCol == 7 then cr.(wks := false) else cr)
       else cr)
    else if m.pieceCaptured == Piece(Black, Rook) then
      (if m.targetRow == 0 then
         (if m.targetCol == 0 then cr.(bqs := false) else if m.targetCol == 7 then cr.(bks := false) else cr)
       else cr)
    else cr
  }

  /** `update_castle_rights`: the moved piece, then the captured piece. Each flag ends up
      set exactly when it was set before and the move gives no reason to clear it. */
  function UpdateCastleRights(cr: CastleRights, m: Move): (cr': CastleRights)
    ensures Within(cr', cr)
    ensures cr'.wks <==> cr.wks && !LosesWks(m)
    ensures cr'.wqs <==> cr.wqs && !LosesWqs(m)
    ensures cr'.bks <==> cr.bks && !LosesBks(m)
    ensures cr'.bqs <==> cr.bqs && !LosesBqs(m)
  {
    ClearByCapture(ClearByMover(cr, m), m)
  }

  /** A king move clears both of its colour's rights, whatever else happens. */
  lemma KingMoveClearsBoth(cr: CastleRights, m: Move)
    requires m.pieceMoved.Piece? && m.pieceMoved.kind == King
    ensures m.pieceMoved.color == White ==> !UpdateCastleRights(cr, m).wks && !UpdateCastleRights(cr, m).wqs
    ensures m.pieceMoved.color == Black ==> !UpdateCastleRights(cr, m).bks && !UpdateCastleRights(cr, m).bqs
  {
  }

  /** Clearing is monotone: starting from fewer rights never yields more. */
  lemma UpdateMonotone(a: CastleRights, b: CastleRights, m: Move)
    requires Within(a, b)
    ensures Within(UpdateCastleRights(a, m), UpdateCastleRights(b, m))
  {
  }

  /** A move that touches neither king nor a corner rook leaves the rights as they were. */
  lemma QuietMoveKeepsRights(cr: CastleRights, m: Move)
    requires !LosesWks(m) && !LosesWqs(m) && !LosesBks(m) && !LosesBqs(m)
    ensures UpdateCastleRights(cr, m) == cr
  {
  }
}
