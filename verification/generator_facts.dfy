/** Facts about the pseudo-legal generator that the legality filter relies on: the moves of
    a position are pairwise different (so `Move.__eq__` tells them apart), the attack test
    does not depend on the en-passant square except on that square itself, and the king's
    step onto an empty neighbouring square is always generated. */
module GeneratorFacts {
  import opened Options
  import opened Pieces
  import opened Boards
  import opened Moves
  import opened Generator

  // ---------------------------------------------------------------------------------------
  // Distinct moves

  /** A ray never visits a square twice, so its moves are distinct. */
  lemma {:induction false} RayDistinct(b: Board, whiteToMove: bool, r: int, c: int, tr: int, tc: int, dr: int, dc: int, k: nat)
    requires OnBoard(r, c) && 1 <= k <= 8 && (dr != 0 || dc != 0)
    decreases 8 - k
    ensures Distinct(Ray(b, whiteToMove, r, c, tr, tc, dr, dc, k))
  {
    if k < 8 && OnBoard(tr, tc) && IsEmpty(b, tr, tc) {
      RayDistinct(b, whiteToMove, r, c, tr + dr, tc + dc, dr, dc, k + 1);
      RayConsDistinct(b, whiteToMove, r, c, tr, tc, dr, dc, k);
    } else {
      RayStops(b, whiteToMove, r, c, tr, tc, dr, dc, k);
    }
  }

  /** Where the walk stops, the ray is at most the one move onto (tr, tc). */
  lemma RayStops(b: Board, whiteToMove: bool, r: int, c: int, tr: int, tc: int, dr: int, dc: int, k: nat)
    requires OnBoard(r, c) && 1 <= k <= 8 && !(k < 8 && OnBoard(tr, tc) && IsEmpty(b, tr, tc))
    ensures |Ray(b, whiteToMove, r, c, tr, tc, dr, dc, k)| <= 1
    ensures AllBeyond(Ray(b, whiteToMove, r, c, tr, tc, dr, dc, k), r, c, (tr, tc), dr, dc)
  {
    if k < 8 && OnBoard(tr, tc) && !Team(b, whiteToMove, tr, tc) {
      var m := NewMove(r, c, tr, tc, b, false, false);
      assert Ray(b, whiteToMove, r, c, tr, tc, dr, dc, k) == [m];
      assert forall y :: y in [m] ==> y == m;
    } else {
      assert Ray(b, whiteToMove, r, c, tr, tc, dr, dc, k) == [];
    }
  }

  /** One step onto an empty square keeps the ray's moves distinct. */
  lemma RayConsDistinct(b: Board, whiteToMove: bool, r: int, c: int, tr: int, tc: int, dr: int, dc: int, k: nat)
    requires OnBoard(r, c) && 1 <= k < 8 && OnBoard(tr, tc) && IsEmpty(b, tr, tc) && (dr != 0 || dc != 0)
    requires Distinct(Ray(b, whiteToMove, r, c, tr + dr, tc + dc, dr, dc, k + 1))
    ensures Distinct(Ray(b, whiteToMove, r, c, tr, tc, dr, dc, k))
  {
    var rest := Ray(b, whiteToMove, r, c, tr + dr, tc + dc, dr, dc, k + 1);
    RayBeyond(b, whiteToMove, r, c, tr + dr, tc + dc, dr, dc, k + 1);
    var m := NewMove(r, c, tr, tc, b, false, false);
    BeyondMisses(rest, r, c, tr, tc, dr, dc);
    ConsDistinct(m, rest, tr, tc);
    assert Ray(b, whiteToMove, r, c, tr, tc, dr, dc, k) == [m] + rest;
  }

  /** Moves that target squares one step or more beyond (tr, tc) miss (tr, tc). */
  lemma BeyondMisses(rest: seq<Move>, r: int, c: int, tr: int, tc: int, dr: int, dc: int)
    requires AllBeyond(rest, r, c, (tr + dr, tc + dc), dr, dc) && (dr != 0 || dc != 0)
    ensures forall y :: y in rest ==> !y.Target(tr, tc)
  {
    forall y | y in rest
      ensures !y.Target(tr, tc)
    {
      PastTheStart((y.targetRow, y.targetCol), tr, tc, dr, dc);
    }
  }

  /** Every move of `ms` starts on (r, c) and targets a square from `s` onward in direction
      (dr, dc). */
  predicate AllBeyond(ms: seq<Move>, r: int, c: int, s: Square, dr: int, dc: int)
  {
    forall y :: y in ms ==> y.Start(r, c) && Beyond((y.targetRow, y.targetCol), s, dr, dc)
  }

  /** Every move of a ray starts on (r, c) and targets a square from (tr, tc) onward in the
      ray's direction. */
  lemma {:induction false} RayBeyond(b: Board, whiteToMove: bool, r: int, c: int, tr: int, tc: int, dr: int, dc: int, k: nat)
    requires OnBoard(r, c) && 1 <= k <= 8
    decreases 8 - k
    ensures AllBeyond(Ray(b, whiteToMove, r, c, tr, tc, dr, dc, k), r, c, (tr, tc), dr, dc)
  {
    if k < 8 && OnBoard(tr, tc) && IsEmpty(b, tr, tc) {
      RayBeyond(b, whiteToMove, r, c, tr + dr, tc + dc, dr, dc, k + 1);
      RayConsBeyond(b, whiteToMove, r, c, tr, tc, dr, dc, k);
    } else {
      RayStops(b, whiteToMove, r, c, tr, tc, dr, dc, k);
    }
  }

  /** One step onto an empty square keeps every target from (tr, tc) onward. */
  lemma RayConsBeyond(b: Board, whiteToMove: bool, r: int, c: int, tr: int, tc: int, dr: int, dc: int, k: nat)
    requires OnBoard(r, c) && 1 <= k < 8 && OnBoard(tr, tc) && IsEmpty(b, tr, tc)
    requires AllBeyond(Ray(b, whiteToMove, r, c, tr + dr, tc + dc, dr, dc, k + 1), r, c, (tr + dr, tc + dc), dr, dc)
    ensures AllBeyond(Ray(b, whiteToMove, r, c, tr, tc, dr, dc, k), r, c, (tr, tc), dr, dc)
  {
    var rest := Ray(b, whiteToMove, r, c, tr + dr, tc + dc, dr, dc, k + 1);
    var m := NewMove(r, c, tr, tc, b, false, false);
    ConsBeyond(m, rest, r, c, tr, tc, dr, dc);
    assert Ray(b, whiteToMove, r, c, tr, tc, dr, dc, k) == [m] + rest;
  }

  /** A move to (tr, tc) in front of moves that reach from one step further on keeps every
      target from (tr, tc) onward. */
  lemma ConsBeyond(m: Move, rest: seq<Move>, r: int, c: int, tr: int, tc: int, dr: int, dc: int)
    requires m.Start(r, c) && m.Target(tr, tc)
    requires AllBeyond(rest, r, c, (tr + dr, tc + dc), dr, dc)
    ensures AllBeyond([m] + rest, r, c, (tr, tc), dr, dc)
  {
  }

  /** A move in front of distinct moves none of which targets its square keeps them
      distinct. */
  lemma ConsDistinct(m: Move, rest: seq<Move>, tr: int, tc: int)
    requires m.Target(tr, tc) && Distinct(rest) && forall y :: y in rest ==> !y.Target(tr, tc)
    ensures Distinct([m] + rest)
  {
    DistinctAppend([m], rest);
  }

  /** A square one step or more beyond (tr, tc) is not (tr, tc) itself. */
  lemma PastTheStart(t: Square, tr: int, tc: int, dr: int, dc: int)
    requires Beyond(t, (tr + dr, tc + dc), dr, dc) && (dr != 0 || dc != 0)
    ensures t != (tr, tc)
  {
  }

  /** -1, 0 or 1 as `x` is negative, zero or positive. */
  function Sign(x: int): int
  {
    if x < 0 then -1 else if x > 0 then 1 else 0
  }

  /** Every move of `ms` starts on (r, c) and heads from there in one of the directions `hs`:
      the signs of its row step and of its column step. */
  predicate Headed(ms: seq<Move>, r: int, c: int, hs: set<(int, int)>)
  {
    forall m :: m in ms ==> m.Start(r, c) && (Sign(m.targetRow - r), Sign(m.targetCol - c)) in hs
  }

  /** The moves of the ray from (r, c) in direction (dr, dc) are distinct. */
  lemma RayFromDistinct(b: Board, whiteToMove: bool, r: int, c: int, dr: int, dc: int)
    requires OnBoard(r, c) && (dr != 0 || dc != 0)
    ensures Distinct(RayFrom(b, whiteToMove, r, c, dr, dc))
  {
    RayDistinct(b, whiteToMove, r, c, r + dr, c + dc, dr, dc, 1);
  }

  /** The ray from (r, c) in direction (dr, dc) heads only that way. */
  lemma RayFromHeaded(b: Board, whiteToMove: bool, r: int, c: int, dr: int, dc: int)
    requires OnBoard(r, c) && -1 <= dr <= 1 && -1 <= dc <= 1
    ensures Headed(RayFrom(b, whiteToMove, r, c, dr, dc), r, c, {(dr, dc)})
  {
    RayBeyond(b, whiteToMove, r, c, r + dr, c + dc, dr, dc, 1);
    BeyondHeaded(RayFrom(b, whiteToMove, r, c, dr, dc), r, c, dr, dc);
  }

  /** The ray from (r, c) in direction (dr, dc) heads only that way, and its moves are
      distinct. */
  lemma RayFromFacts(b: Board, whiteToMove: bool, r: int, c: int, dr: int, dc: int)
    requires OnBoard(r, c) && -1 <= dr <= 1 && -1 <= dc <= 1 && (dr != 0 || dc != 0)
    ensures Distinct(RayFrom(b, whiteToMove, r, c, dr, dc))
    ensures Headed(RayFrom(b, whiteToMove, r, c, dr, dc), r, c, {(dr, dc)})
  {
    RayFromDistinct(b, whiteToMove, r, c, dr, dc);
    RayFromHeaded(b, whiteToMove, r, c, dr, dc);
  }

  /** Moves that start on (r, c) and target squares from the next one onward in direction
      (dr, dc) all head that way. */
  lemma BeyondHeaded(ms: seq<Move>, r: int, c: int, dr: int, dc: int)
    requires -1 <= dr <= 1 && -1 <= dc <= 1
    requires AllBeyond(ms, r, c, (r + dr, c + dc), dr, dc)
    ensures Headed(ms, r, c, {(dr, dc)})
  {
    forall m | m in ms
      ensures (Sign(m.targetRow - r), Sign(m.targetCol - c)) == (dr, dc)
    {
      assert Beyond((m.targetRow, m.targetCol), (r + dr, c + dc), dr, dc);
    }
  }

  /** Moves heading in disjoint sets of directions never share a target, so two distinct
      lists of them stay distinct together. */
  lemma HeadingsApart(a: seq<Move>, d: seq<Move>, r: int, c: int, ha: set<(int, int)>, hd: set<(int, int)>)
    requires Distinct(a) && Distinct(d) && Headed(a, r, c, ha) && Headed(d, r, c, hd) && ha !! hd
    ensures Distinct(a + d) && Headed(a + d, r, c, ha + hd)
  {
    DistinctAppend(a, d);
  }

  lemma BishopDistinct(b: Board, whiteToMove: bool, r: int, c: int)
    requires OnBoard(r, c)
    ensures Distinct(BishopMoves(b, whiteToMove, r, c))
    ensures forall m :: m in BishopMoves(b, whiteToMove, r, c) ==> m.targetRow != r && m.targetCol != c
  {
    var a := RayFrom(b, whiteToMove, r, c, 1, 1);
    var d := RayFrom(b, whiteToMove, r, c, 1, -1);
    var e := RayFrom(b, whiteToMove, r, c, -1, 1);
    var f := RayFrom(b, whiteToMove, r, c, -1, -1);
    RayFromFacts(b, whiteToMove, r, c, 1, 1);
    RayFromFacts(b, whiteToMove, r, c, 1, -1);
    RayFromFacts(b, whiteToMove, r, c, -1, 1);
    RayFromFacts(b, whiteToMove, r, c, -1, -1);
    HeadingsApart(a, d, r, c, {(1, 1)}, {(1, -1)});
    HeadingsApart(a + d, e, r, c, {(1, 1)} + {(1, -1)}, {(-1, 1)});
    HeadingsApart(a + d + e, f, r, c, {(1, 1)} + {(1, -1)} + {(-1, 1)}, {(-1, -1)});
  }

  lemma RookDistinct(b: Board, whiteToMove: bool, r: int, c: int)
    requires OnBoard(r, c)
    ensures Distinct(RookMoves(b, whiteToMove, r, c))
    ensures forall m :: m in RookMoves(b, whiteToMove, r, c) ==> m.targetRow == r || m.targetCol == c
  {
    var a := RayFrom(b, whiteToMove, r, c, 1, 0);
    var d := RayFrom(b, whiteToMove, r, c, -1, 0);
    var e := RayFrom(b, whiteToMove, r, c, 0, 1);
    var f := RayFrom(b, whiteToMove, r, c, 0, -1);
    RayFromFacts(b, whiteToMove, r, c, 1, 0);
    RayFromFacts(b, whiteToMove, r, c, -1, 0);
    RayFromFacts(b, whiteToMove, r, c, 0, 1);
    RayFromFacts(b, whiteToMove, r, c, 0, -1);
    HeadingsApart(a, d, r, c, {(1, 0)}, {(-1, 0)});
    HeadingsApart(a + d, e, r, c, {(1, 0)} + {(-1, 0)}, {(0, 1)});
    HeadingsApart(a + d + e, f, r, c, {(1, 0)} + {(-1, 0)} + {(0, 1)}, {(0, -1)});
  }

  lemma QueenDistinct(b: Board, whiteToMove: bool, r: int, c: int)
    requires OnBoard(r, c)
    ensures Distinct(QueenMoves(b, whiteToMove, r, c))
  {
    BishopDistinct(b, whiteToMove, r, c);
    RookDistinct(b, whiteToMove, r, c);
    DistinctAppend(BishopMoves(b, whiteToMove, r, c), RookMoves(b, whiteToMove, r, c));
  }

  /** The pawn's advances go straight ahead and its captures diagonally, each to its own
      square. */
  lemma PawnDistinct(b: Board, whiteToMove: bool, ep: Option<Square>, r: int, c: int)
    requires OnBoard(r, c) && OnBoard(r + Forward(whiteToMove), c)
    ensures Distinct(PawnMoves(b, whiteToMove, ep, r, c))
  {
    FrontCaptures(b, whiteToMove, ep, r, c);
    FrontDistinct(b, whiteToMove, ep, r, c);
    DistinctAppend(PawnAdvance(b, whiteToMove, r, c), SideCapture(b, whiteToMove, ep, r, c, -1) + SideCapture(b, whiteToMove, ep, r, c, 1));
  }

  /** The capture a pawn on (r, c) finds on the diagonal square ahead in direction `dc`. */
  function SideCapture(b: Board, whiteToMove: bool, ep: Option<Square>, r: int, c: int, dc: int): (ms: seq<Move>)
    requires OnBoard(r, c)
    ensures forall m :: m in ms ==> m.targetCol == c + dc && m.Start(r, c)
    ensures |ms| <= 1
  {
    var d := Forward(whiteToMove);
    if OnBoard(r + d, c + dc) then PawnCapture(b, whiteToMove, ep, r, c, r + d, c + dc) else []
  }

  /** `front_squares` over the three squares ahead yields the left capture and then the
      right one. */
  lemma FrontCaptures(b: Board, whiteToMove: bool, ep: Option<Square>, r: int, c: int)
    requires OnBoard(r, c)
    ensures FrontSquares(b, whiteToMove, ep, r, c, FrontOf(whiteToMove, r, c), 0)
      == SideCapture(b, whiteToMove, ep, r, c, -1) + SideCapture(b, whiteToMove, ep, r, c, 1)
  {
    var front := FrontOf(whiteToMove, r, c);
    var left := SideCapture(b, whiteToMove, ep, r, c, -1);
    var right := SideCapture(b, whiteToMove, ep, r, c, 1);
    assert FrontSquares(b, whiteToMove, ep, r, c, front, 3) == [];
    assert FrontSquares(b, whiteToMove, ep, r, c, front, 2) == right + [];
    assert FrontSquares(b, whiteToMove, ep, r, c, front, 1) == [] + right;
  }

  /** A pawn's moves reach exactly its targets: the steps ahead, the diagonal squares that
      hold an enemy piece, and the en-passant square when it lies on a diagonal. */
  lemma PawnMovesReach(b: Board, whiteToMove: bool, ep: Option<Square>, r: int, c: int, tr: int, tc: int)
    requires OnBoard(r, c) && OnBoard(r + Forward(whiteToMove), c)
    ensures Reaches(PawnMoves(b, whiteToMove, ep, r, c), tr, tc) <==> PawnTarget(b, whiteToMove, ep, r, c, tr, tc)
  {
    var ms := PawnMoves(b, whiteToMove, ep, r, c);
    var adv := PawnAdvance(b, whiteToMove, r, c);
    FrontCaptures(b, whiteToMove, ep, r, c);
    var left := SideCapture(b, whiteToMove, ep, r, c, -1);
    var right := SideCapture(b, whiteToMove, ep, r, c, 1);
    assert ms == adv + (left + right);
    if PawnStep(b, whiteToMove, r, c, tr, tc) {
      var m :| m in adv && m.Target(tr, tc);
      assert m in ms;
    } else if PawnDiagonal(whiteToMove, r, c, tr, tc) && (Enemy(b, whiteToMove, tr, tc) || ep == Some((tr, tc))) {
      var side := if tc == c - 1 then left else right;
      assert side == PawnCapture(b, whiteToMove, ep, r, c, tr, tc);
      assert side[0] in ms && side[0].Target(tr, tc);
    }
  }

  /** The two captures go to different squares, neither straight ahead. */
  lemma FrontDistinct(b: Board, whiteToMove: bool, ep: Option<Square>, r: int, c: int)
    requires OnBoard(r, c)
    ensures Distinct(SideCapture(b, whiteToMove, ep, r, c, -1) + SideCapture(b, whiteToMove, ep, r, c, 1))
    ensures forall m :: m in SideCapture(b, whiteToMove, ep, r, c, -1) + SideCapture(b, whiteToMove, ep, r, c, 1) ==> m.targetCol != c
  {
    DistinctAppend(SideCapture(b, whiteToMove, ep, r, c, -1), SideCapture(b, whiteToMove, ep, r, c, 1));
  }

  lemma PieceMovesDistinct(b: Board, whiteToMove: bool, ep: Option<Square>, r: int, c: int)
    requires OnBoard(r, c) && NoPawnOnFarRank(b) && Team(b, whiteToMove, r, c)
    ensures Distinct(PieceMoves(b, whiteToMove, ep, r, c))
  {
    match At(b, r, c).kind
    case Pawn => PawnDistinct(b, whiteToMove, ep, r, c);
    case Knight =>
    case Bishop => BishopDistinct(b, whiteToMove, r, c);
    case Rook => RookDistinct(b, whiteToMove, r, c);
    case Queen => QueenDistinct(b, whiteToMove, r, c);
    case King =>
  }

  lemma {:induction false} ScanColsDistinct(b: Board, whiteToMove: bool, ep: Option<Square>, r: int, c: int)
    requires 0 <= r < 8 && 0 <= c <= 8 && NoPawnOnFarRank(b)
    decreases 8 - c
    ensures Distinct(ScanCols(b, whiteToMove, ep, r, c))
  {
    if c < 8 {
      if Team(b, whiteToMove, r, c) {
        PieceMovesDistinct(b, whiteToMove, ep, r, c);
      }
      ScanColsDistinct(b, whiteToMove, ep, r, c + 1);
      DistinctAppend(MovesFrom(b, whiteToMove, ep, r, c), ScanCols(b, whiteToMove, ep, r, c + 1));
    }
  }

  lemma {:induction false} ScanRowsDistinct(b: Board, whiteToMove: bool, ep: Option<Square>, r: int)
    requires 0 <= r <= 8 && NoPawnOnFarRank(b)
    decreases 8 - r
    ensures Distinct(ScanRows(b, whiteToMove, ep, r))
  {
    if r < 8 {
      ScanColsDistinct(b, whiteToMove, ep, r, 0);
      ScanRowsDistinct(b, whiteToMove, ep, r + 1);
      DistinctAppend(ScanCols(b, whiteToMove, ep, r, 0), ScanRows(b, whiteToMove, ep, r + 1));
    }
  }

  /** No two moves of a position share a start and a target square, so no two are equal
      under `Move.__eq__`. */
  lemma PossibleMovesDistinct(b: Board, whiteToMove: bool, ep: Option<Square>)
    requires NoPawnOnFarRank(b)
    ensures Distinct(PossibleMoves(b, whiteToMove, ep))
    ensures DistinctIDs(PossibleMoves(b, whiteToMove, ep))
  {
    var ms := PossibleMoves(b, whiteToMove, ep);
    ScanRowsDistinct(b, whiteToMove, ep, 0);
    assert forall m :: m in ms ==> m.OnBoardMove();
    DistinctGivesIDs(ms);
  }

  /** Moves on the board with different squares have different `moveID`s. */
  lemma DistinctGivesIDs(ms: seq<Move>)
    requires Distinct(ms) && forall m :: m in ms ==> m.OnBoardMove()
    ensures DistinctIDs(ms)
  {
    forall p, q | 0 <= p < q < |ms|
      ensures !SameMove(ms[p], ms[q])
    {
      assert ms[p] in ms && ms[q] in ms;
      SameMoveIff(ms[p], ms[q]);
    }
  }

  /** No two moves of `ms` are equal under `Move.__eq__`. */
  predicate DistinctIDs(ms: seq<Move>)
  {
    forall p, q :: 0 <= p < q < |ms| ==> !SameMove(ms[p], ms[q])
  }

  // ---------------------------------------------------------------------------------------
  // Membership

  /** `possible_moves` collects exactly the moves of the pieces of the side to move. */
  lemma PossibleMovesMembers(b: Board, whiteToMove: bool, ep: Option<Square>, m: Move)
    requires NoPawnOnFarRank(b)
    ensures m in PossibleMoves(b, whiteToMove, ep) <==>
      OnBoard(m.startRow, m.startCol) && Team(b, whiteToMove, m.startRow, m.startCol)
      && m in PieceMoves(b, whiteToMove, ep, m.startRow, m.startCol)
  {
    if m in PossibleMoves(b, whiteToMove, ep) {
      ScanRowsMembers(b, whiteToMove, ep, 0, m);
    } else if OnBoard(m.startRow, m.startCol) && Team(b, whiteToMove, m.startRow, m.startCol) {
      ScanRowsMembers(b, whiteToMove, ep, 0, m);
    }
  }

  /** `m` is a move of the piece of the side to move that stands on its start square. */
  predicate OwnMove(b: Board, whiteToMove: bool, ep: Option<Square>, m: Move)
    requires NoPawnOnFarRank(b)
  {
    && OnBoard(m.startRow, m.startCol) && Team(b, whiteToMove, m.startRow, m.startCol)
    && m in PieceMoves(b, whiteToMove, ep, m.startRow, m.startCol)
  }

  lemma {:induction false} ScanColsMembers(b: Board, whiteToMove: bool, ep: Option<Square>, r: int, c: int, m: Move)
    requires 0 <= r < 8 && 0 <= c <= 8 && NoPawnOnFarRank(b)
    decreases 8 - c
    ensures m in ScanCols(b, whiteToMove, ep, r, c) <==> m.startRow == r && c <= m.startCol && OwnMove(b, whiteToMove, ep, m)
  {
    if c < 8 {
      var here := MovesFrom(b, whiteToMove, ep, r, c);
      var rest := ScanCols(b, whiteToMove, ep, r, c + 1);
      assert ScanCols(b, whiteToMove, ep, r, c) == here + rest;
      assert m in here + rest <==> m in here || m in rest;
      ScanColsMembers(b, whiteToMove, ep, r, c + 1, m);
      MovesFromMembers(b, whiteToMove, ep, r, c, m);
    }
  }

  /** The moves from one square are those of the piece of the side to move standing there. */
  lemma MovesFromMembers(b: Board, whiteToMove: bool, ep: Option<Square>, r: int, c: int, m: Move)
    requires OnBoard(r, c) && NoPawnOnFarRank(b)
    ensures m in MovesFrom(b, whiteToMove, ep, r, c) <==> m.Start(r, c) && OwnMove(b, whiteToMove, ep, m)
  {
  }

  lemma {:induction false} ScanRowsMembers(b: Board, whiteToMove: bool, ep: Option<Square>, r: int, m: Move)
    requires 0 <= r <= 8 && NoPawnOnFarRank(b)
    decreases 8 - r
    ensures m in ScanRows(b, whiteToMove, ep, r) <==> r <= m.startRow && OwnMove(b, whiteToMove, ep, m)
  {
    if r < 8 {
      ScanColsMembers(b, whiteToMove, ep, r, 0, m);
      ScanRowsMembers(b, whiteToMove, ep, r + 1, m);
    }
  }

  /** The king of the side to move can always step onto an empty neighbouring square:
      that move is among the position's moves. */
  lemma KingStepGenerated(b: Board, whiteToMove: bool, ep: Option<Square>, r: int, c: int, tr: int, tc: int)
    requires NoPawnOnFarRank(b) && OnBoard(r, c) && At(b, r, c) == Piece(SideToMove(whiteToMove), King)
    requires OnBoard(tr, tc) && IsEmpty(b, tr, tc) && -1 <= tr - r <= 1 && -1 <= tc - c <= 1
    ensures exists m :: (m in PossibleMoves(b, whiteToMove, ep) && m.Start(r, c) && m.Target(tr, tc)
      && m.pieceMoved == Piece(SideToMove(whiteToMove), King))
  {
    var ks := KingMoves(b, whiteToMove, r, c);
    assert Team(b, whiteToMove, r, c) && At(b, r, c).kind == King;
    assert Open(b, whiteToMove, tr, tc);
    var m :| m in ks && m.Target(tr, tc);
    KingPieceMoves(b, whiteToMove, ep, r, c);
    PossibleMovesMembers(b, whiteToMove, ep, m);
  }

  /** The generator `move_functions` picks for each kind of piece. */
  lemma PieceMovesByKind(b: Board, whiteToMove: bool, ep: Option<Square>, r: int, c: int)
    requires NoPawnOnFarRank(b) && OnBoard(r, c) && Team(b, whiteToMove, r, c)
    ensures At(b, r, c).kind == Pawn ==>
      OnBoard(r + Forward(whiteToMove), c) && PieceMoves(b, whiteToMove, ep, r, c) == PawnMoves(b, whiteToMove, ep, r, c)
    ensures At(b, r, c).kind == Knight ==> PieceMoves(b, whiteToMove, ep, r, c) == KnightMoves(b, whiteToMove, r, c)
    ensures At(b, r, c).kind == Bishop ==> PieceMoves(b, whiteToMove, ep, r, c) == BishopMoves(b, whiteToMove, r, c)
    ensures At(b, r, c).kind == Rook ==> PieceMoves(b, whiteToMove, ep, r, c) == RookMoves(b, whiteToMove, r, c)
    ensures At(b, r, c).kind == Queen ==> PieceMoves(b, whiteToMove, ep, r, c) == QueenMoves(b, whiteToMove, r, c)
    ensures At(b, r, c).kind == King ==> PieceMoves(b, whiteToMove, ep, r, c) == KingMoves(b, whiteToMove, r, c)
  {
  }

  lemma KingPieceMoves(b: Board, whiteToMove: bool, ep: Option<Square>, r: int, c: int)
    requires NoPawnOnFarRank(b) && OnBoard(r, c) && Team(b, whiteToMove, r, c) && At(b, r, c).kind == King
    ensures PieceMoves(b, whiteToMove, ep, r, c) == KingMoves(b, whiteToMove, r, c)
  {
    match At(b, r, c).kind
    case King =>
  }

  // ---------------------------------------------------------------------------------------
  // The en-passant square only adds en-passant moves

  /** The moves of `ms` that are not en passant. */
  function NonEp(ms: seq<Move>): (ns: seq<Move>)
    ensures forall m :: m in ns <==> m in ms && !m.isEp
  {
    if |ms| == 0 then []
    else (if ms[0].isEp then [] else [ms[0]]) + NonEp(ms[1..])
  }

  lemma {:induction false} NonEpAppend(a: seq<Move>, b: seq<Move>)
    ensures NonEp(a + b) == NonEp(a) + NonEp(b)
  {
    if |a| > 0 {
      assert (a + b)[1..] == a[1..] + b;
      NonEpAppend(a[1..], b);
    } else {
      assert a + b == b;
    }
  }

  lemma {:induction false} NonEpOfPlain(ms: seq<Move>)
    requires forall m :: m in ms ==> !m.isEp
    ensures NonEp(ms) == ms
  {
    if |ms| > 0 {
      assert ms[0] in ms;
      assert forall m :: m in ms[1..] ==> m in ms;
      NonEpOfPlain(ms[1..]);
    }
  }

  lemma {:induction false} FrontSquaresNonEp(b: Board, whiteToMove: bool, ep: Option<Square>, r: int, c: int, front: seq<Square>, idx: nat)
    requires OnBoard(r, c)
    decreases |front| - idx
    ensures NonEp(FrontSquares(b, whiteToMove, ep, r, c, front, idx)) == FrontSquares(b, whiteToMove, None, r, c, front, idx)
  {
    if idx < |front| {
      var sq := front[idx];
      var here := if OnBoard(sq.0, sq.1) && idx % 2 == 0 then PawnCapture(b, whiteToMove, ep, r, c, sq.0, sq.1) else [];
      var plain := if OnBoard(sq.0, sq.1) && idx % 2 == 0 then PawnCapture(b, whiteToMove, None, r, c, sq.0, sq.1) else [];
      assert NonEp(here) == plain;
      FrontSquaresNonEp(b, whiteToMove, ep, r, c, front, idx + 1);
      NonEpAppend(here, FrontSquares(b, whiteToMove, ep, r, c, front, idx + 1));
    }
  }

  lemma PawnMovesNonEp(b: Board, whiteToMove: bool, ep: Option<Square>, r: int, c: int)
    requires OnBoard(r, c) && OnBoard(r + Forward(whiteToMove), c)
    ensures NonEp(PawnMoves(b, whiteToMove, ep, r, c)) == PawnMoves(b, whiteToMove, None, r, c)
  {
    var front := FrontOf(whiteToMove, r, c);
    NonEpOfPlain(PawnAdvance(b, whiteToMove, r, c));
    FrontSquaresNonEp(b, whiteToMove, ep, r, c, front, 0);
    NonEpAppend(PawnAdvance(b, whiteToMove, r, c), FrontSquares(b, whiteToMove, ep, r, c, front, 0));
  }

  lemma PieceMovesNonEp(b: Board, whiteToMove: bool, ep: Option<Square>, r: int, c: int)
    requires OnBoard(r, c) && NoPawnOnFarRank(b) && Team(b, whiteToMove, r, c)
    ensures NonEp(PieceMoves(b, whiteToMove, ep, r, c)) == PieceMoves(b, whiteToMove, None, r, c)
  {
    if At(b, r, c).kind == Pawn {
      PawnMovesNonEp(b, whiteToMove, ep, r, c);
    } else {
      NonEpOfPlain(PieceMoves(b, whiteToMove, ep, r, c));
    }
  }

  lemma {:induction false} ScanColsNonEp(b: Board, whiteToMove: bool, ep: Option<Square>, r: int, c: int)
    requires 0 <= r < 8 && 0 <= c <= 8 && NoPawnOnFarRank(b)
    decreases 8 - c
    ensures NonEp(ScanCols(b, whiteToMove, ep, r, c)) == ScanCols(b, whiteToMove, None, r, c)
  {
    if c < 8 {
      if Team(b, whiteToMove, r, c) {
        PieceMovesNonEp(b, whiteToMove, ep, r, c);
      }
      ScanColsNonEp(b, whiteToMove, ep, r, c + 1);
      NonEpAppend(MovesFrom(b, whiteToMove, ep, r, c), ScanCols(b, whiteToMove, ep, r, c + 1));
    }
  }

  lemma {:induction false} ScanRowsNonEp(b: Board, whiteToMove: bool, ep: Option<Square>, r: int)
    requires 0 <= r <= 8 && NoPawnOnFarRank(b)
    decreases 8 - r
    ensures NonEp(ScanRows(b, whiteToMove, ep, r)) == ScanRows(b, whiteToMove, None, r)
  {
    if r < 8 {
      ScanColsNonEp(b, whiteToMove, ep, r, 0);
      ScanRowsNonEp(b, whiteToMove, ep, r + 1);
      NonEpAppend(ScanCols(b, whiteToMove, ep, r, 0), ScanRows(b, whiteToMove, ep, r + 1));
    }
  }

  /** Removing the en-passant moves from a position's moves leaves the moves the position
      has without an en-passant square. */
  lemma PossibleMovesNonEp(b: Board, whiteToMove: bool, ep: Option<Square>)
    requires NoPawnOnFarRank(b)
    ensures NonEp(PossibleMoves(b, whiteToMove, ep)) == PossibleMoves(b, whiteToMove, None)
  {
    ScanRowsNonEp(b, whiteToMove, ep, 0);
  }

  /** `square_under_attack` gives the same answer whatever `ep_possible` holds, for every
      square other than the en-passant square itself. */
  lemma AttackIgnoresEp(b: Board, whiteToMove: bool, ep: Option<Square>, r: int, c: int)
    requires NoPawnOnFarRank(b) && ep != Some((r, c))
    ensures SquareUnderAttack(b, whiteToMove, ep, r, c) <==> SquareUnderAttack(b, whiteToMove, None, r, c)
  {
    var ms := PossibleMoves(b, !whiteToMove, ep);
    PossibleMovesNonEp(b, !whiteToMove, ep);
    assert forall m :: m in ms && m.isEp ==> ep == Some((m.targetRow, m.targetCol));
    ReachesWithoutEp(ms, ep, r, c);
  }

  /** Dropping the en-passant moves, which all target the en-passant square, keeps every
      other square reached. */
  lemma ReachesWithoutEp(ms: seq<Move>, ep: Option<Square>, r: int, c: int)
    requires forall m :: m in ms && m.isEp ==> ep == Some((m.targetRow, m.targetCol))
    requires ep != Some((r, c))
    ensures Reaches(ms, r, c) <==> Reaches(NonEp(ms), r, c)
  {
    if Reaches(ms, r, c) {
      var m :| m in ms && m.Target(r, c);
      assert m in NonEp(ms);
    }
    if Reaches(NonEp(ms), r, c) {
      var m :| m in NonEp(ms) && m.Target(r, c);
      assert m in ms;
    }
  }
}
