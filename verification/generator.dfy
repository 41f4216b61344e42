/** Pseudo-legal move generation (`possible_moves` and the per-piece generators) and the
    attack test built on it (`square_under_attack`). Moves are produced in the order the
    source appends them. */
module Generator {
  import opened Options
  import opened Pieces
  import opened Boards
  import opened Moves

  type Square = (int, int)

  /** The pawn generator reads the square in front of a pawn without an `on_board` check,
      so a white pawn on row 0 or a black pawn on row 7 would make it look off the board.
      Promotion keeps both ranks free of such pawns. Both colours matter, because the
      attack test generates the opponent's moves too. */
  predicate NoPawnOnFarRank(b: Board)
  {
    forall c :: 0 <= c < 8 ==> At(b, 0, c) != Piece(White, Pawn) && At(b, 7, c) != Piece(Black, Pawn)
  }

  /** What every generated move from (r, c) satisfies: it starts there and carries the
      piece found there, targets a square on the board, and is not a castle; a move that is
      not en passant targets a square without a friendly piece and records its occupant as
      captured; an en-passant move targets the en-passant square. */
  predicate Emitted(b: Board, whiteToMove: bool, ep: Option<Square>, r: int, c: int, m: Move)
  {
    && OnBoard(r, c) && m.Start(r, c) && OnBoard(m.targetRow, m.targetCol)
    && m.pieceMoved == At(b, r, c) && !m.isCastle
    && (m.isPawnPromotion <==> IsPawn(m.pieceMoved) && m.targetRow == FarRank(m.pieceMoved.color))
    && (m.isEp ==> ep == Some((m.targetRow, m.targetCol)))
    && (!m.isEp ==> !Team(b, whiteToMove, m.targetRow, m.targetCol) && m.pieceCaptured == At(b, m.targetRow, m.targetCol))
  }

  /** An empty square on the board. */
  predicate Vacant(b: Board, r: int, c: int)
  {
    OnBoard(r, c) && IsEmpty(b, r, c)
  }

  /** Some move of `ms` targets (r, c). */
  predicate Reaches(ms: seq<Move>, r: int, c: int)
  {
    exists m :: m in ms && m.Target(r, c)
  }

  /** The target of `t` lies from `s` in direction (dr, dc), or on `s` itself. */
  predicate Beyond(t: Square, s: Square, dr: int, dc: int)
  {
    && (dr == 0 ==> t.0 == s.0) && (dr > 0 ==> t.0 >= s.0) && (dr < 0 ==> t.0 <= s.0)
    && (dc == 0 ==> t.1 == s.1) && (dc > 0 ==> t.1 >= s.1) && (dc < 0 ==> t.1 <= s.1)
  }

  /** No two moves share both start and target square. */
  predicate Distinct(ms: seq<Move>)
  {
    forall p, q :: 0 <= p < q < |ms| ==>
      !(ms[p].Start(ms[q].startRow, ms[q].startCol) && ms[p].Target(ms[q].targetRow, ms[q].targetCol))
  }

  /** Where a ray walk stops without a move: after seven steps, off the board, or on a
      friendly piece. */
  predicate Blocked(b: Board, whiteToMove: bool, tr: int, tc: int, k: int)
  {
    k >= 8 || !OnBoard(tr, tc) || Team(b, whiteToMove, tr, tc)
  }

  /** One ray of a sliding piece on (r, c), from the square (tr, tc), which is `k` steps
      away, onward in direction (dr, dc): empty squares are taken and the walk goes on; an
      enemy piece is taken and ends the walk; a friendly piece or the board's edge ends it
      without a move. The bishop's lists run for at most seven steps (`range(1, 8)`); the
      rook's lists end exactly at the board's edge, where this walk stops as well. */
  function Ray(b: Board, whiteToMove: bool, r: int, c: int, tr: int, tc: int, dr: int, dc: int, k: nat): (ms: seq<Move>)
    requires OnBoard(r, c) && 1 <= k <= 8
    decreases 8 - k
    ensures |ms| == 0 <==> Blocked(b, whiteToMove, tr, tc, k)
    ensures |ms| > 0 ==> ms[0].Target(tr, tc)
  {
    if k == 8 || !OnBoard(tr, tc) then []
    else if IsEmpty(b, tr, tc) then
      [NewMove(r, c, tr, tc, b, false, false)] + Ray(b, whiteToMove, r, c, tr + dr, tc + dc, dr, dc, k + 1)
    else if !Team(b, whiteToMove, tr, tc) then
      [NewMove(r, c, tr, tc, b, false, false)]
    else
      []
  }

  /** Every move of a ray is emitted from (r, c) and is not en passant. */
  lemma {:induction false} RayEmits(b: Board, whiteToMove: bool, r: int, c: int, tr: int, tc: int, dr: int, dc: int, k: nat)
    requires OnBoard(r, c) && 1 <= k <= 8
    decreases 8 - k
    ensures forall m :: m in Ray(b, whiteToMove, r, c, tr, tc, dr, dc, k) ==> Emitted(b, whiteToMove, None, r, c, m) && !m.isEp
  {
    if k < 8 && OnBoard(tr, tc) && IsEmpty(b, tr, tc) {
      var rest := Ray(b, whiteToMove, r, c, tr + dr, tc + dc, dr, dc, k + 1);
      RayEmits(b, whiteToMove, r, c, tr + dr, tc + dc, dr, dc, k + 1);
      assert Ray(b, whiteToMove, r, c, tr, tc, dr, dc, k) == [NewMove(r, c, tr, tc, b, false, false)] + rest;
    }
  }

  /** Consecutive targets of `ms` are one step (dr, dc) apart, and every target but the
      last is an empty square. */
  predicate StepsOverEmpty(b: Board, ms: seq<Move>, dr: int, dc: int)
  {
    forall i :: 0 <= i < |ms| - 1 ==> StepAt(b, ms, i, dr, dc)
  }

  /** The target of `ms[i]` is empty and `ms[i + 1]` targets the square one step further. */
  predicate StepAt(b: Board, ms: seq<Move>, i: int, dr: int, dc: int)
    requires 0 <= i < |ms| - 1
  {
    Vacant(b, ms[i].targetRow, ms[i].targetCol) && ms[i + 1].Target(ms[i].targetRow + dr, ms[i].targetCol + dc)
  }

  /** When the last target of `ms` is empty, the square one step further is blocked. */
  predicate EndsBlocked(b: Board, whiteToMove: bool, ms: seq<Move>, dr: int, dc: int, k: int)
  {
    |ms| > 0 && Vacant(b, ms[|ms| - 1].targetRow, ms[|ms| - 1].targetCol) ==>
      Blocked(b, whiteToMove, ms[|ms| - 1].targetRow + dr, ms[|ms| - 1].targetCol + dc, k + |ms|)
  }

  /** A ray walks one step at a time over empty squares: every target before its last is
      empty, and consecutive targets are one step apart. */
  lemma {:induction false} RayStepsOverEmptySquares(b: Board, whiteToMove: bool, r: int, c: int, tr: int, tc: int, dr: int, dc: int, k: nat)
    requires OnBoard(r, c) && 1 <= k <= 8
    decreases 8 - k
    ensures StepsOverEmpty(b, Ray(b, whiteToMove, r, c, tr, tc, dr, dc, k), dr, dc)
  {
    if k < 8 && OnBoard(tr, tc) && IsEmpty(b, tr, tc) {
      var rest := Ray(b, whiteToMove, r, c, tr + dr, tc + dc, dr, dc, k + 1);
      RayStepsOverEmptySquares(b, whiteToMove, r, c, tr + dr, tc + dc, dr, dc, k + 1);
      var m := NewMove(r, c, tr, tc, b, false, false);
      ConsStepsOverEmpty(b, m, rest, dr, dc);
    }
  }

  lemma ConsStepsOverEmpty(b: Board, m: Move, rest: seq<Move>, dr: int, dc: int)
    requires StepsOverEmpty(b, rest, dr, dc) && Vacant(b, m.targetRow, m.targetCol)
    requires |rest| > 0 ==> rest[0].Target(m.targetRow + dr, m.targetCol + dc)
    ensures StepsOverEmpty(b, [m] + rest, dr, dc)
  {
    var ms := [m] + rest;
    forall i | 0 <= i < |ms| - 1
      ensures StepAt(b, ms, i, dr, dc)
    {
      if i > 0 {
        assert StepAt(b, rest, i - 1, dr, dc);
        assert ms[i] == rest[i - 1] && ms[i + 1] == rest[i];
      }
    }
  }

  /** A ray stops at the first occupied square and not before: when its last target is
      empty, the next square is blocked (off the board, friendly, or past seven steps). The
      last target, if occupied, holds an enemy piece (`Emitted` says it is not friendly). */
  lemma {:induction false} RayStopsAtFirstPiece(b: Board, whiteToMove: bool, r: int, c: int, tr: int, tc: int, dr: int, dc: int, k: nat)
    requires OnBoard(r, c) && 1 <= k <= 8
    decreases 8 - k
    ensures EndsBlocked(b, whiteToMove, Ray(b, whiteToMove, r, c, tr, tc, dr, dc, k), dr, dc, k)
  {
    if k < 8 && OnBoard(tr, tc) && IsEmpty(b, tr, tc) {
      var rest := Ray(b, whiteToMove, r, c, tr + dr, tc + dc, dr, dc, k + 1);
      RayStopsAtFirstPiece(b, whiteToMove, r, c, tr + dr, tc + dc, dr, dc, k + 1);
      var m := NewMove(r, c, tr, tc, b, false, false);
      ConsEndsBlocked(b, whiteToMove, m, rest, dr, dc, k);
    }
  }

  lemma ConsEndsBlocked(b: Board, whiteToMove: bool, m: Move, rest: seq<Move>, dr: int, dc: int, k: int)
    requires EndsBlocked(b, whiteToMove, rest, dr, dc, k + 1)
    requires |rest| == 0 ==> Blocked(b, whiteToMove, m.targetRow + dr, m.targetCol + dc, k + 1)
    ensures EndsBlocked(b, whiteToMove, [m] + rest, dr, dc, k)
  {
    var ms := [m] + rest;
    if |rest| > 0 {
      assert ms[|ms| - 1] == rest[|rest| - 1];
    }
  }

  /** The ray leaving (r, c) in direction (dr, dc). */
  function RayFrom(b: Board, whiteToMove: bool, r: int, c: int, dr: int, dc: int): (ms: seq<Move>)
    requires OnBoard(r, c)
    ensures forall m :: m in ms ==> Emitted(b, whiteToMove, None, r, c, m) && !m.isEp
  {
    RayEmits(b, whiteToMove, r, c, r + dr, c + dc, dr, dc, 1);
    Ray(b, whiteToMove, r, c, r + dr, c + dc, dr, dc, 1)
  }

  /** `bishop_moves`: the four diagonals in the source's order. */
  function BishopMoves(b: Board, whiteToMove: bool, r: int, c: int): (ms: seq<Move>)
    requires OnBoard(r, c)
    ensures forall m :: m in ms ==> Emitted(b, whiteToMove, None, r, c, m) && !m.isEp
  {
    RayFrom(b, whiteToMove, r, c, 1, 1) + RayFrom(b, whiteToMove, r, c, 1, -1)
      + RayFrom(b, whiteToMove, r, c, -1, 1) + RayFrom(b, whiteToMove, r, c, -1, -1)
  }

  /** `rook_moves`: down, up, right and left, in the source's order. */
  function RookMoves(b: Board, whiteToMove: bool, r: int, c: int): (ms: seq<Move>)
    requires OnBoard(r, c)
    ensures forall m :: m in ms ==> Emitted(b, whiteToMove, None, r, c, m) && !m.isEp
  {
    RayFrom(b, whiteToMove, r, c, 1, 0) + RayFrom(b, whiteToMove, r, c, -1, 0)
      + RayFrom(b, whiteToMove, r, c, 0, 1) + RayFrom(b, whiteToMove, r, c, 0, -1)
  }

  /** `queen_moves`: the bishop's moves followed by the rook's. */
  function QueenMoves(b: Board, whiteToMove: bool, r: int, c: int): (ms: seq<Move>)
    requires OnBoard(r, c)
    ensures forall m :: m in ms ==> Emitted(b, whiteToMove, None, r, c, m) && !m.isEp
  {
    BishopMoves(b, whiteToMove, r, c) + RookMoves(b, whiteToMove, r, c)
  }

  /** The two pieces that jump to a fixed set of offsets. */
  datatype Leaper = KnightLeap | KingLeap

  /** The largest offset the source's double loop tries: -2..2 for the knight, -1..1 for the king. */
  function Reach(l: Leaper): int
  {
    if l == KnightLeap then 2 else 1
  }

  /** Offsets the loop keeps: the knight's satisfy i*i + j*j == 5; the king's are all nine
      (its own square is then dropped because it holds a friendly piece). */
  predicate Jump(l: Leaper, i: int, j: int)
  {
    l == KingLeap || KnightJump(i, j)
  }

  /** The knight's test on an offset: `i ** 2 + j ** 2 == 5`. */
  predicate KnightJump(i: int, j: int)
  {
    i * i + j * j == 5
  }

  /** The test both leapers apply to a target: on the board, and empty or not friendly. */
  predicate Open(b: Board, whiteToMove: bool, tr: int, tc: int)
  {
    OnBoard(tr, tc) && (IsEmpty(b, tr, tc) || !Team(b, whiteToMove, tr, tc))
  }

  /** The inner loop of a leaper: offset row `i`, offset columns `j` up to the reach. */
  function LeapCols(b: Board, whiteToMove: bool, r: int, c: int, l: Leaper, i: int, j: int): (ms: seq<Move>)
    requires OnBoard(r, c)
    decreases Reach(l) + 1 - j
    ensures forall m :: m in ms ==> Emitted(b, whiteToMove, None, r, c, m) && !m.isEp
    ensures forall m :: m in ms ==>
      m.targetRow == r + i && c + j <= m.targetCol <= c + Reach(l) && Jump(l, i, m.targetCol - c)
    ensures forall tr, tc :: (tr == r + i && c + j <= tc <= c + Reach(l) && Jump(l, i, tc - c)
      && Open(b, whiteToMove, tr, tc)) ==> Reaches(ms, tr, tc)
    ensures Distinct(ms)
  {
    if j > Reach(l) then []
    else
      var here := if Jump(l, i, j) && Open(b, whiteToMove, r + i, c + j)
        then [NewMove(r, c, r + i, c + j, b, false, false)] else [];
      var rest := LeapCols(b, whiteToMove, r, c, l, i, j + 1);
      ReachesAppendAll(here, rest);
      assert Jump(l, i, j) && Open(b, whiteToMove, r + i, c + j) ==> Reaches(here, r + i, c + j) by {
        if Jump(l, i, j) && Open(b, whiteToMove, r + i, c + j) {
          assert here[0] in here;
        }
      }
      DistinctAppend(here, rest);
      here + rest
  }

  /** The outer loop of a leaper: offset rows from `i` up to the reach. */
  function LeapRows(b: Board, whiteToMove: bool, r: int, c: int, l: Leaper, i: int): (ms: seq<Move>)
    requires OnBoard(r, c)
    decreases Reach(l) + 1 - i
    ensures forall m :: m in ms ==> Emitted(b, whiteToMove, None, r, c, m) && !m.isEp
    ensures forall m :: m in ms ==>
      r + i <= m.targetRow <= r + Reach(l) && -Reach(l) <= m.targetCol - c <= Reach(l)
      && Jump(l, m.targetRow - r, m.targetCol - c)
    ensures forall tr, tc :: (r + i <= tr <= r + Reach(l) && -Reach(l) <= tc - c <= Reach(l)
      && Jump(l, tr - r, tc - c) && Open(b, whiteToMove, tr, tc)) ==> Reaches(ms, tr, tc)
    ensures Distinct(ms)
  {
    if i > Reach(l) then []
    else
      var row := LeapCols(b, whiteToMove, r, c, l, i, -Reach(l));
      var rest := LeapRows(b, whiteToMove, r, c, l, i + 1);
      ReachesAppendAll(row, rest);
      DistinctAppend(row, rest);
      row + rest
  }

  /** A square is reached by two lists together exactly when one of them reaches it. */
  lemma ReachesAppendAll(a: seq<Move>, b: seq<Move>)
    ensures forall tr, tc :: Reaches(a + b, tr, tc) <==> Reaches(a, tr, tc) || Reaches(b, tr, tc)
  {
    forall tr, tc
      ensures Reaches(a + b, tr, tc) <==> Reaches(a, tr, tc) || Reaches(b, tr, tc)
    {
      if Reaches(a + b, tr, tc) {
        var m :| m in a + b && m.Target(tr, tc);
        assert m in a || m in b;
      }
      if Reaches(a, tr, tc) {
        var m :| m in a && m.Target(tr, tc);
        assert m in a + b;
      }
      if Reaches(b, tr, tc) {
        var m :| m in b && m.Target(tr, tc);
        assert m in a + b;
      }
    }
  }

  /** `knight_moves`: every target is a (1, 2) jump away. */
  function KnightMoves(b: Board, whiteToMove: bool, r: int, c: int): (ms: seq<Move>)
    requires OnBoard(r, c)
    ensures forall m :: m in ms ==> Emitted(b, whiteToMove, None, r, c, m) && !m.isEp
    ensures forall m :: m in ms ==> KnightJump(m.targetRow - r, m.targetCol - c)
    ensures forall m :: m in ms ==> -2 <= m.targetRow - r <= 2 && -2 <= m.targetCol - c <= 2
    ensures forall tr, tc ::
      (-2 <= tr - r <= 2 && -2 <= tc - c <= 2 && KnightJump(tr - r, tc - c)
        && Open(b, whiteToMove, tr, tc)) ==> Reaches(ms, tr, tc)
  {
    KnightLeapsJump(b, whiteToMove, r, c);
    KnightLeapsReach(b, whiteToMove, r, c);
    LeapRows(b, whiteToMove, r, c, KnightLeap, -2)
  }

  lemma KnightLeapsJump(b: Board, whiteToMove: bool, r: int, c: int)
    requires OnBoard(r, c)
    ensures forall m :: m in LeapRows(b, whiteToMove, r, c, KnightLeap, -2) ==> KnightJump(m.targetRow - r, m.targetCol - c)
    ensures forall m :: m in LeapRows(b, whiteToMove, r, c, KnightLeap, -2) ==> -2 <= m.targetRow - r <= 2 && -2 <= m.targetCol - c <= 2
  {
  }

  lemma KnightLeapsReach(b: Board, whiteToMove: bool, r: int, c: int)
    requires OnBoard(r, c)
    ensures forall tr, tc ::
      (-2 <= tr - r <= 2 && -2 <= tc - c <= 2 && KnightJump(tr - r, tc - c)
        && Open(b, whiteToMove, tr, tc)) ==> Reaches(LeapRows(b, whiteToMove, r, c, KnightLeap, -2), tr, tc)
  {
    forall tr, tc | -2 <= tr - r <= 2 && -2 <= tc - c <= 2 && KnightJump(tr - r, tc - c) && Open(b, whiteToMove, tr, tc)
      ensures Reaches(LeapRows(b, whiteToMove, r, c, KnightLeap, -2), tr, tc)
    {
      assert Reach(KnightLeap) == 2 && Jump(KnightLeap, tr - r, tc - c);
    }
  }

  /** `king_moves` (castling is generated separately). */
  function KingMoves(b: Board, whiteToMove: bool, r: int, c: int): (ms: seq<Move>)
    requires OnBoard(r, c)
    ensures forall m :: m in ms ==> Emitted(b, whiteToMove, None, r, c, m) && !m.isEp
    ensures forall m :: m in ms ==> -1 <= m.targetRow - r <= 1 && -1 <= m.targetCol - c <= 1
    ensures forall tr, tc :: -1 <= tr - r <= 1 && -1 <= tc - c <= 1 && Open(b, whiteToMove, tr, tc) ==> Reaches(ms, tr, tc)
  {
    LeapRows(b, whiteToMove, r, c, KingLeap, -1)
  }

  /** An enemy piece stands on (r, c). */
  predicate Enemy(b: Board, whiteToMove: bool, r: int, c: int)
  {
    OnBoard(r, c) && !IsEmpty(b, r, c) && !Team(b, whiteToMove, r, c)
  }

  /** The row the pawns of the side to move start on. */
  function PawnHome(whiteToMove: bool): int
  {
    if whiteToMove then 6 else 1
  }

  /** A pawn on (r, c) may step straight ahead to (tr, tc): one row onto an empty square,
      or from its home row two rows when both squares are empty. */
  predicate PawnStep(b: Board, whiteToMove: bool, r: int, c: int, tr: int, tc: int)
  {
    var d := Forward(whiteToMove);
    && OnBoard(r + d, c) && tc == c && IsEmpty(b, r + d, c)
    && (tr == r + d || (r == PawnHome(whiteToMove) && tr == r + 2 * d && IsEmpty(b, tr, c)))
  }

  /** (tr, tc) is one of the two squares diagonally in front of a pawn on (r, c). */
  predicate PawnDiagonal(whiteToMove: bool, r: int, c: int, tr: int, tc: int)
  {
    OnBoard(tr, tc) && tr == r + Forward(whiteToMove) && (tc == c - 1 || tc == c + 1)
  }

  /** What a pawn on (r, c) may do to (tr, tc): step ahead, take an enemy piece on a
      diagonal, or move diagonally onto the en-passant square. */
  predicate PawnTarget(b: Board, whiteToMove: bool, ep: Option<Square>, r: int, c: int, tr: int, tc: int)
  {
    || PawnStep(b, whiteToMove, r, c, tr, tc)
    || (PawnDiagonal(whiteToMove, r, c, tr, tc) && (Enemy(b, whiteToMove, tr, tc) || ep == Some((tr, tc))))
  }

  /** One diagonal square in front of a pawn: a capture when it holds an enemy piece, else
      an en-passant move when it is the en-passant square. */
  function PawnCapture(b: Board, whiteToMove: bool, ep: Option<Square>, r: int, c: int, tr: int, tc: int): (ms: seq<Move>)
    requires OnBoard(r, c) && OnBoard(tr, tc)
    ensures |ms| <= 1
    ensures |ms| == 1 <==> Enemy(b, whiteToMove, tr, tc) || ep == Some((tr, tc))
    ensures forall m :: m in ms ==> Emitted(b, whiteToMove, ep, r, c, m) && m.Target(tr, tc)
    ensures forall m :: m in ms ==> (m.isEp <==> !Enemy(b, whiteToMove, tr, tc))
    ensures forall m :: m in ms && m.isEp ==> EpCapture(m)
  {
    if !Team(b, whiteToMove, tr, tc) && !IsEmpty(b, tr, tc) then [NewMove(r, c, tr, tc, b, false, false)]
    else if ep == Some((tr, tc)) then [NewMove(r, c, tr, tc, b, true, false)]
    else []
  }

  /** `front_squares`: walks the three squares in front of the pawn and looks only at
      positions 0 and 2 (the diagonals). The source finds a square's position with
      `front_sq.index`, which is its index here because the three squares differ. */
  function FrontSquares(b: Board, whiteToMove: bool, ep: Option<Square>, r: int, c: int, front: seq<Square>, idx: nat): (ms: seq<Move>)
    requires OnBoard(r, c)
    decreases |front| - idx
    ensures forall m :: m in ms ==> Emitted(b, whiteToMove, ep, r, c, m)
    ensures forall m :: m in ms ==> exists j :: idx <= j < |front| && j % 2 == 0 && m.Target(front[j].0, front[j].1)
    ensures forall m :: m in ms ==> (m.isEp <==> !Enemy(b, whiteToMove, m.targetRow, m.targetCol))
    ensures forall m :: m in ms && m.isEp ==> EpCapture(m)
  {
    if idx >= |front| then []
    else
      var sq := front[idx];
      (if OnBoard(sq.0, sq.1) && idx % 2 == 0 then PawnCapture(b, whiteToMove, ep, r, c, sq.0, sq.1) else [])
        + FrontSquares(b, whiteToMove, ep, r, c, front, idx + 1)
  }

  /** The direction a pawn of the side to move advances in. */
  function Forward(whiteToMove: bool): int
  {
    if whiteToMove then -1 else 1
  }

  /** `pawn_moves`: the steps straight ahead, then the diagonal captures. Every move is one
      of the pawn's targets: a step ahead that takes nothing, a capture of an enemy piece on
      a diagonal, or an en-passant move onto the en-passant square when the diagonal holds
      no enemy piece. */
  function PawnMoves(b: Board, whiteToMove: bool, ep: Option<Square>, r: int, c: int): (ms: seq<Move>)
    requires OnBoard(r, c) && OnBoard(r + Forward(whiteToMove), c)
    ensures forall m :: m in ms ==> Emitted(b, whiteToMove, ep, r, c, m)
    ensures forall m :: m in ms ==>
      || (!m.isEp && PawnStep(b, whiteToMove, r, c, m.targetRow, m.targetCol) && m.pieceCaptured == Empty)
      || (PawnDiagonal(whiteToMove, r, c, m.targetRow, m.targetCol) && !m.isEp && Enemy(b, whiteToMove, m.targetRow, m.targetCol))
      || (PawnDiagonal(whiteToMove, r, c, m.targetRow, m.targetCol) && m.isEp && !Enemy(b, whiteToMove, m.targetRow, m.targetCol))
    ensures forall m :: m in ms && m.isEp ==> m.targetRow == r + Forward(whiteToMove) && (m.targetCol == c - 1 || m.targetCol == c + 1)
    ensures forall m :: m in ms && m.isEp ==> EpCapture(m)
  {
    var front := FrontOf(whiteToMove, r, c);
    var fs := FrontSquares(b, whiteToMove, ep, r, c, front, 0);
    assert forall m :: m in fs ==> PawnDiagonal(whiteToMove, r, c, m.targetRow, m.targetCol);
    PawnAdvance(b, whiteToMove, r, c) + fs
  }

  /** The squares in front of a pawn: ahead-left, ahead, ahead-right. */
  function FrontOf(whiteToMove: bool, r: int, c: int): seq<Square>
  {
    var d := Forward(whiteToMove);
    [(r + d, c - 1), (r + d, c), (r + d, c + 1)]
  }

  /** A pawn's steps straight ahead: one onto an empty square, and from its home row a
      second when that square is empty too. These are exactly the pawn's steps, and none
      of them captures. */
  function PawnAdvance(b: Board, whiteToMove: bool, r: int, c: int): (ms: seq<Move>)
    requires OnBoard(r, c) && OnBoard(r + Forward(whiteToMove), c)
    ensures forall m :: m in ms ==> Emitted(b, whiteToMove, None, r, c, m) && !m.isEp && m.pieceCaptured == Empty
    ensures forall m :: m in ms ==> PawnStep(b, whiteToMove, r, c, m.targetRow, m.targetCol)
    ensures forall tr, tc :: PawnStep(b, whiteToMove, r, c, tr, tc) ==> Reaches(ms, tr, tc)
    ensures Distinct(ms)
  {
    var d := Forward(whiteToMove);
    var home := if whiteToMove then 6 else 1;
    if IsEmpty(b, r + d, c) then
      var one := NewMove(r, c, r + d, c, b, false, false);
      if r == home && IsEmpty(b, r + 2 * d, c) then
        var two := NewMove(r, c, r + 2 * d, c, b, false, false);
        assert one in [one, two] && two in [one, two];
        [one] + [two]
      else
        assert one in [one];
        [one]
    else []
  }

  /** A pawn capturing en passant takes a pawn of the other colour. */
  predicate EpCapture(m: Move)
  {
    IsPawn(m.pieceMoved) ==> m.pieceCaptured == Piece(Opponent(m.pieceMoved.color), Pawn)
  }

  /** An en-passant move is a pawn's diagonal step forward that takes a pawn. */
  predicate EpShape(whiteToMove: bool, m: Move)
  {
    m.isEp ==>
      && IsPawn(m.pieceMoved) && m.targetRow == m.startRow + Forward(whiteToMove)
      && (m.targetCol == m.startCol - 1 || m.targetCol == m.startCol + 1) && EpCapture(m)
  }

  /** What every move of `possible_moves` satisfies: it starts on a square of the side to
      move and is emitted from there. */
  predicate Generated(b: Board, whiteToMove: bool, ep: Option<Square>, m: Move)
  {
    && OnBoard(m.startRow, m.startCol) && Team(b, whiteToMove, m.startRow, m.startCol)
    && Emitted(b, whiteToMove, ep, m.startRow, m.startCol, m) && EpShape(whiteToMove, m)
  }

  /** The generator `move_functions` picks for the piece on (r, c). */
  function PieceMoves(b: Board, whiteToMove: bool, ep: Option<Square>, r: int, c: int): (ms: seq<Move>)
    requires OnBoard(r, c) && NoPawnOnFarRank(b) && Team(b, whiteToMove, r, c)
    ensures forall m :: m in ms ==> Generated(b, whiteToMove, ep, m) && m.Start(r, c)
  {
    match At(b, r, c).kind
    case Pawn =>
      var ms := PawnMoves(b, whiteToMove, ep, r, c);
      PawnMovesGenerated(b, whiteToMove, ep, r, c, ms);
      ms
    case Knight => var ms := KnightMoves(b, whiteToMove, r, c); LeapsAndSlidesGenerated(b, whiteToMove, ep, r, c, ms); ms
    case Bishop => var ms := BishopMoves(b, whiteToMove, r, c); LeapsAndSlidesGenerated(b, whiteToMove, ep, r, c, ms); ms
    case Rook => var ms := RookMoves(b, whiteToMove, r, c); LeapsAndSlidesGenerated(b, whiteToMove, ep, r, c, ms); ms
    case Queen => var ms := QueenMoves(b, whiteToMove, r, c); LeapsAndSlidesGenerated(b, whiteToMove, ep, r, c, ms); ms
    case King => var ms := KingMoves(b, whiteToMove, r, c); LeapsAndSlidesGenerated(b, whiteToMove, ep, r, c, ms); ms
  }

  /** The moves of a piece that never takes en passant are generated moves whatever the
      en-passant square. */
  lemma LeapsAndSlidesGenerated(b: Board, whiteToMove: bool, ep: Option<Square>, r: int, c: int, ms: seq<Move>)
    requires OnBoard(r, c) && Team(b, whiteToMove, r, c)
    requires forall m :: m in ms ==> Emitted(b, whiteToMove, None, r, c, m) && !m.isEp
    ensures forall m :: m in ms ==> Generated(b, whiteToMove, ep, m) && m.Start(r, c)
  {
  }

  lemma PawnMovesGenerated(b: Board, whiteToMove: bool, ep: Option<Square>, r: int, c: int, ms: seq<Move>)
    requires OnBoard(r, c) && Team(b, whiteToMove, r, c) && IsPawn(At(b, r, c))
    requires forall m :: m in ms ==> Emitted(b, whiteToMove, ep, r, c, m)
    requires forall m :: m in ms && m.isEp ==> m.targetRow == r + Forward(whiteToMove) && (m.targetCol == c - 1 || m.targetCol == c + 1)
    requires forall m :: m in ms && m.isEp ==> EpCapture(m)
    ensures forall m :: m in ms ==> Generated(b, whiteToMove, ep, m) && m.Start(r, c)
  {
  }

  /** The inner loop of `possible_moves`: row `r`, columns from `c`. */
  function ScanCols(b: Board, whiteToMove: bool, ep: Option<Square>, r: int, c: int): (ms: seq<Move>)
    requires 0 <= r < 8 && 0 <= c <= 8 && NoPawnOnFarRank(b)
    decreases 8 - c
    ensures forall m :: m in ms ==> Generated(b, whiteToMove, ep, m) && m.startRow == r && m.startCol >= c
  {
    if c == 8 then []
    else
      MovesFrom(b, whiteToMove, ep, r, c) + ScanCols(b, whiteToMove, ep, r, c + 1)
  }

  /** The body of the inner loop: the moves of the piece on (r, c) when it belongs to the
      side to move, and none otherwise. */
  function MovesFrom(b: Board, whiteToMove: bool, ep: Option<Square>, r: int, c: int): (ms: seq<Move>)
    requires OnBoard(r, c) && NoPawnOnFarRank(b)
    ensures forall m :: m in ms ==> Generated(b, whiteToMove, ep, m) && m.Start(r, c)
  {
    if Team(b, whiteToMove, r, c) then PieceMoves(b, whiteToMove, ep, r, c) else []
  }

  /** The outer loop of `possible_moves`: rows from `r`. */
  function ScanRows(b: Board, whiteToMove: bool, ep: Option<Square>, r: int): (ms: seq<Move>)
    requires 0 <= r <= 8 && NoPawnOnFarRank(b)
    decreases 8 - r
    ensures forall m :: m in ms ==> Generated(b, whiteToMove, ep, m) && m.startRow >= r
  {
    if r == 8 then [] else ScanCols(b, whiteToMove, ep, r, 0) + ScanRows(b, whiteToMove, ep, r + 1)
  }

  /** `possible_moves`: the moves of every piece of the side to move, square by square. */
  function PossibleMoves(b: Board, whiteToMove: bool, ep: Option<Square>): (ms: seq<Move>)
    requires NoPawnOnFarRank(b)
    ensures forall m :: m in ms ==> Generated(b, whiteToMove, ep, m)
  {
    ScanRows(b, whiteToMove, ep, 0)
  }

  /** `square_under_attack`: some pseudo-legal move of the other side targets (r, c). */
  predicate SquareUnderAttack(b: Board, whiteToMove: bool, ep: Option<Square>, r: int, c: int)
    requires NoPawnOnFarRank(b)
  {
    Reaches(PossibleMoves(b, !whiteToMove, ep), r, c)
  }

  /** Appending two lists of distinct moves whose targets differ gives distinct moves. */
  lemma DistinctAppend(a: seq<Move>, b: seq<Move>)
    requires Distinct(a) && Distinct(b)
    requires forall x, y :: x in a && y in b ==>
      !(x.Start(y.startRow, y.startCol) && x.Target(y.targetRow, y.targetCol))
    ensures Distinct(a + b)
  {
    forall p, q | 0 <= p < q < |a + b|
      ensures !((a + b)[p].Start((a + b)[q].startRow, (a + b)[q].startCol) && (a + b)[p].Target((a + b)[q].targetRow, (a + b)[q].targetCol))
    {
      if q < |a| {
        assert (a + b)[p] == a[p] && (a + b)[q] == a[q];
      } else if p >= |a| {
        assert (a + b)[p] == b[p - |a|] && (a + b)[q] == b[q - |a|];
      } else {
        assert (a + b)[p] in a && (a + b)[q] in b;
      }
    }
  }
}
