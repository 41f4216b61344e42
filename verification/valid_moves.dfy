/** `get_valid_moves`: each pseudo-legal move is made, the mover's king is examined for check,
    the move is removed from the list if it is, and the move is taken back; then the end of
    the game is detected and the castling moves are added. */
module ValidMoves {
  import opened Options
  import opened Pieces
  import opened Boards
  import opened Moves
  import opened Castling
  import opened Generator
  import opened GeneratorFacts
  import opened GameStates

  /** Two states with the same board, turn and king squares: everything `in_check` and the
      move generators look at, apart from the en-passant square. */
  predicate SamePosition(a: GameState, b: GameState)
  {
    a.board == b.board && a.whiteToMove == b.whiteToMove && a.wKing == b.wKing && a.bKing == b.bKing
  }

  /** The rights the state holds are the last ones logged, as `make_move` and a correct
      `undo_move` keep them. */
  predicate RightsLogged(gs: GameState)
  {
    |gs.rightsLog| >= 1 && gs.rightsLog[|gs.rightsLog| - 1] == gs.rights
  }

  /** `square_under_attack(r, c)` on a state. The trial loop and the castling code take it
      as a parameter; `Attacked` is the engine's own. */
  type AttackTest = (GameState, int, int) -> bool

  /** The engine's attack test: the other side, given the move on this board with this
      en-passant square, has a pseudo-legal move landing on (r, c). */
  predicate Attacked(gs: GameState, r: int, c: int)
  {
    NoPawnOnFarRank(gs.board) && SquareUnderAttack(gs.board, gs.whiteToMove, gs.ep, r, c)
  }

  /** An attack test that looks only at the board, the side to move and the en-passant
      square. */
  ghost predicate ReadsPosition(attacked: AttackTest)
  {
    forall a: GameState, b: GameState, r: int, c: int ::
      a.board == b.board && a.whiteToMove == b.whiteToMove && a.ep == b.ep ==> attacked(a, r, c) == attacked(b, r, c)
  }

  lemma ReadsPositionAt(attacked: AttackTest, a: GameState, b: GameState, r: int, c: int)
    requires ReadsPosition(attacked)
    requires a.board == b.board && a.whiteToMove == b.whiteToMove && a.ep == b.ep
    ensures attacked(a, r, c) == attacked(b, r, c)
  {
  }

  /** An attack test that ignores the en-passant square when asked about another square. */
  ghost predicate EpBlind(attacked: AttackTest)
  {
    forall a: GameState, r: int, c: int ::
      a.ep != Some((r, c)) ==> attacked(a.(ep := None), r, c) == attacked(a, r, c)
  }

  lemma AttackedEpBlind()
    ensures EpBlind(Attacked)
  {
    forall a: GameState, r: int, c: int | a.ep != Some((r, c))
      ensures Attacked(a.(ep := None), r, c) == Attacked(a, r, c)
    {
      if NoPawnOnFarRank(a.board) {
        AttackIgnoresEp(a.board, a.whiteToMove, a.ep, r, c);
      }
    }
  }

  lemma AttackedReadsPosition()
    ensures ReadsPosition(Attacked)
  {
  }

  function KingSquare(gs: GameState): Square
  {
    if gs.whiteToMove then gs.wKing else gs.bKing
  }

  /** The king of the side to move stands on its cached square. */
  lemma KingStands(gs: GameState)
    requires KingsCached(gs)
    ensures OnBoard(KingSquare(gs).0, KingSquare(gs).1)
    ensures At(gs.board, KingSquare(gs).0, KingSquare(gs).1) == Piece(SideToMove(gs.whiteToMove), King)
  {
    var k := KingSquare(gs);
    if gs.whiteToMove {
      assert KingOn(gs.board, White, k.0, k.1);
    } else {
      assert KingOn(gs.board, Black, k.0, k.1);
    }
  }

  /** `in_check` under an attack test: the king of the side to move stands on an attacked
      square. */
  predicate Checked(gs: GameState, attacked: AttackTest)
  {
    attacked(gs, KingSquare(gs).0, KingSquare(gs).1)
  }

  /** Under the engine's attack test this is `in_check`. */
  lemma CheckedIsInCheck(gs: GameState)
    requires NoPawnOnFarRank(gs.board)
    ensures Checked(gs, Attacked) <==> InCheck(gs)
  {
  }

  /** The state `in_check` examines inside the loop: the move made and the turn handed back
      to its mover. */
  function Made(gs: GameState, m: Move): GameState
    requires MoveInBounds(m)
  {
    MakeMove(gs, m).(whiteToMove := gs.whiteToMove)
  }

  /** A move the trial loop can make and take back on this state. */
  predicate Playable(gs: GameState, m: Move)
  {
    Fits(gs, m) && PromotionCoherent(m) && !m.isCastle
  }

  /** A playable move after which the mover's own king is not attacked. */
  predicate Passes(gs: GameState, attacked: AttackTest, m: Move)
  {
    Playable(gs, m) && !Checked(Made(gs, m), attacked)
  }

  /** A legal move: one that passes the engine's own attack test. */
  predicate Legal(gs: GameState, m: Move)
  {
    Passes(gs, Attacked, m)
  }

  /** Whether a move passes depends on the position alone. */
  lemma PassesAgrees(a: GameState, b: GameState, attacked: AttackTest, m: Move)
    requires SamePosition(a, b) && ReadsPosition(attacked)
    ensures Passes(a, attacked, m) == Passes(b, attacked, m)
  {
    assert Playable(a, m) == Playable(b, m);
    if Playable(a, m) {
      var ma, mb := Made(a, m), Made(b, m);
      assert ma.board == mb.board && ma.whiteToMove == mb.whiteToMove && ma.ep == mb.ep;
      var k := KingSquare(ma);
      assert KingSquare(mb) == k;
      ReadsPositionAt(attacked, ma, mb, k.0, k.1);
    }
  }

  /** The moves of `ms` that pass, in order. */
  function Keep(gs: GameState, attacked: AttackTest, ms: seq<Move>): (ks: seq<Move>)
    decreases |ms|
    ensures forall m :: m in ks <==> m in ms && Passes(gs, attacked, m)
    ensures |ks| <= |ms|
  {
    if |ms| == 0 then []
    else
      var last := ms[|ms| - 1];
      Keep(gs, attacked, ms[..|ms| - 1]) + (if Passes(gs, attacked, last) then [last] else [])
  }

  lemma {:induction false} KeepAgrees(a: GameState, b: GameState, attacked: AttackTest, ms: seq<Move>)
    requires SamePosition(a, b) && ReadsPosition(attacked)
    decreases |ms|
    ensures Keep(a, attacked, ms) == Keep(b, attacked, ms)
  {
    if |ms| > 0 {
      KeepAgrees(a, b, attacked, ms[..|ms| - 1]);
      PassesAgrees(a, b, attacked, ms[|ms| - 1]);
    }
  }

  // ---------------------------------------------------------------------------------------
  // moves.remove

  /** The position of the first element `__eq__` finds equal to `x`. */
  predicate FirstSame(s: seq<Move>, x: Move, k: int)
  {
    0 <= k < |s| && SameMove(s[k], x) && forall p :: 0 <= p < k ==> !SameMove(s[p], x)
  }

  /** `list.remove(x)`: drops the first element equal to `x` under `Move.__eq__`. */
  function RemoveFirst(s: seq<Move>, x: Move): (r: seq<Move>)
    requires x in s
    ensures |r| == |s| - 1
    ensures forall p :: 0 <= p < |r| ==> r[p] == s[p] || r[p] == s[p + 1]
  {
    if SameMove(s[0], x) then s[1..] else [s[0]] + RemoveFirst(s[1..], x)
  }

  /** Whatever holds of the first `i` elements holds of the first `i - 1` after a removal. */
  lemma RemoveFirstKeeps(s: seq<Move>, x: Move, i: int, P: Move -> bool)
    requires x in s && 0 < i <= |s|
    requires forall k :: 0 <= k < i ==> P(s[k])
    ensures forall k :: 0 <= k < i - 1 ==> P(RemoveFirst(s, x)[k])
  {
    var r := RemoveFirst(s, x);
    forall k | 0 <= k < i - 1
      ensures P(r[k])
    {
      assert r[k] == s[k] || r[k] == s[k + 1];
    }
  }

  /** `remove` takes out exactly the first equal element, at position `k`, and keeps the
      rest in order. */
  lemma {:induction false} RemoveFirstSplits(s: seq<Move>, x: Move) returns (k: int)
    requires x in s
    decreases |s|
    ensures FirstSame(s, x, k) && RemoveFirst(s, x) == s[..k] + s[k + 1..]
  {
    if SameMove(s[0], x) {
      k := 0;
    } else {
      var t := s[1..];
      InTail(s, x);
      var k' := RemoveFirstSplits(t, x);
      k := k' + 1;
      FirstSameCons(s, x, k');
      assert RemoveFirst(s, x) == [s[0]] + RemoveFirst(t, x);
      ConsAround(s, k');
    }
  }

  /** An element not equal to the head lies in the tail. */
  lemma InTail(s: seq<Move>, x: Move)
    requires x in s && !SameMove(s[0], x)
    ensures x in s[1..]
  {
    var j :| 0 <= j < |s| && s[j] == x;
    assert j != 0 && s[1..][j - 1] == x;
  }

  /** A first equal element in the tail, behind a head that differs, is one further on. */
  lemma FirstSameCons(s: seq<Move>, x: Move, k: int)
    requires |s| > 0 && !SameMove(s[0], x) && FirstSame(s[1..], x, k)
    ensures FirstSame(s, x, k + 1)
  {
    forall p | 0 <= p < k + 1
      ensures !SameMove(s[p], x)
    {
      if p > 0 { assert s[p] == s[1..][p - 1]; }
    }
  }

  /** Putting the head back in front of the tail with position `k` cut out cuts out
      position `k + 1`. */
  lemma ConsAround(s: seq<Move>, k: int)
    requires 0 <= k < |s| - 1
    ensures [s[0]] + (s[1..][..k] + s[1..][k + 1..]) == s[..k + 1] + s[k + 2..]
  {
  }

  /** In a list without repeated move IDs, removing `s[j]` removes position `j`. */
  lemma {:induction false} RemoveFirstAt(s: seq<Move>, j: int)
    requires DistinctIDs(s) && 0 <= j < |s|
    ensures RemoveFirst(s, s[j]) == s[..j] + s[j + 1..]
  {
    if j > 0 {
      assert !SameMove(s[0], s[j]);
      var t := s[1..];
      assert t[j - 1] == s[j];
      assert DistinctIDs(t) by {
        forall p, q | 0 <= p < q < |t|
          ensures !SameMove(t[p], t[q])
        {
          assert t[p] == s[p + 1] && t[q] == s[q + 1];
        }
      }
      RemoveFirstAt(t, j - 1);
      assert [s[0]] + (t[..j - 1] + t[j..]) == s[..j] + s[j + 1..];
    }
  }

  lemma DistinctIDsRemove(s: seq<Move>, j: int)
    requires DistinctIDs(s) && 0 <= j < |s|
    ensures DistinctIDs(s[..j] + s[j + 1..])
  {
    var t := s[..j] + s[j + 1..];
    forall p, q | 0 <= p < q < |t|
      ensures !SameMove(t[p], t[q])
    {
      var p' := if p < j then p else p + 1;
      var q' := if q < j then q else q + 1;
      assert t[p] == s[p'] && t[q] == s[q'];
    }
  }


  // ---------------------------------------------------------------------------------------
  // The trial loop

  /** What the loop needs before trying `moves[..i]`. */
  predicate TrialReady(gs: GameState, moves: seq<Move>, i: int)
  {
    && 0 <= i <= |moves| && NoPawnOnFarRank(gs.board) && |gs.rightsLog| >= 1
    && forall k :: 0 <= k < i ==> Playable(gs, moves[k])
  }

  /** What `make_move` followed by `undo_move` (the corrected one when `fixed`) leaves. */
  predicate BackOk(back: GameState, gs: GameState, m: Move, fixed: bool)
  {
    && SamePosition(back, gs) && back.moveLog == gs.moveLog && back.rightsLog == gs.rightsLog
    && !back.checkmate && !back.stalemate
    && back.ep == (if m.isEp then Some((m.targetRow, m.targetCol)) else None)
    && (!fixed ==> back.rights == UpdateCastleRights(gs.rights, m))
    && (fixed ==> |gs.rightsLog| >= 1 && back.rights == gs.rightsLog[|gs.rightsLog| - 1])
  }

  /** The state after the loop body makes `m` and takes it back. */
  function TrialBack(gs: GameState, m: Move, fixed: bool): (back: GameState)
    requires Playable(gs, m) && |gs.rightsLog| >= 1
    ensures BackOk(back, gs, m, fixed)
  {
    var made := MakeMove(gs, m);
    UndoAfterMake(gs, m);
    if fixed then
      assert made.rightsLog[|made.rightsLog| - 2] == gs.rightsLog[|gs.rightsLog| - 1];
      UndoMoveFixed(made)
    else UndoMove(made)
  }

  /** The list after the loop body on index `i - 1`: `moves.remove(moves[i - 1])` when the
      move leaves the mover's king attacked. */
  function TrialKept(gs: GameState, attacked: AttackTest, moves: seq<Move>, i: int): (kept: seq<Move>)
    requires 0 < i && TrialReady(gs, moves, i)
    ensures |kept| >= i - 1
    ensures forall k :: 0 <= k < i - 1 ==> Playable(gs, kept[k])
  {
    var m := moves[i - 1];
    if !Checked(Made(gs, m), attacked) then moves
    else
      RemoveFirstKeeps(moves, m, i, x => Playable(gs, x));
      RemoveFirst(moves, m)
  }

  lemma PlayableAgrees(a: GameState, b: GameState, moves: seq<Move>, i: int)
    requires SamePosition(a, b) && 0 <= i <= |moves|
    requires forall k :: 0 <= k < i ==> Playable(b, moves[k])
    ensures forall k :: 0 <= k < i ==> Playable(a, moves[k])
  {
  }

  /** One pass of the loop body on index `i - 1`: make the move, look at the mover's king,
      remove the move if it is attacked, take the move back. */
  function TrialStep(gs: GameState, attacked: AttackTest, moves: seq<Move>, i: int, fixed: bool): (s: (GameState, seq<Move>))
    requires 0 < i && TrialReady(gs, moves, i)
    ensures TrialReady(s.0, s.1, i - 1)
    ensures BackOk(s.0, gs, moves[i - 1], fixed)
  {
    var back := TrialBack(gs, moves[i - 1], fixed);
    var kept := TrialKept(gs, attacked, moves, i);
    PlayableAgrees(back, gs, kept, i - 1);
    (back, kept)
  }

  /** `for i in range(len(moves) - 1, -1, -1)` over the first `i` moves. */
  function Trial(gs: GameState, attacked: AttackTest, moves: seq<Move>, i: int, fixed: bool): (t: (GameState, seq<Move>))
    requires TrialReady(gs, moves, i)
    decreases i
    ensures SamePosition(t.0, gs) && t.0.moveLog == gs.moveLog && t.0.rightsLog == gs.rightsLog
    ensures !fixed ==> Within(t.0.rights, gs.rights)
    ensures fixed && RightsLogged(gs) ==> t.0.rights == gs.rights
    ensures i > 0 ==> !t.0.checkmate && !t.0.stalemate
  {
    if i == 0 then (gs, moves)
    else
      var s := TrialStep(gs, attacked, moves, i, fixed);
      assert fixed && RightsLogged(gs) ==> RightsLogged(s.0);
      Trial(s.0, attacked, s.1, i - 1, fixed)
  }

  /** Under distinct move IDs a step removes exactly the move it tried, if anything. */
  lemma TrialStepShape(gs: GameState, attacked: AttackTest, moves: seq<Move>, i: int, fixed: bool)
    requires 0 < i && TrialReady(gs, moves, i) && DistinctIDs(moves)
    ensures var s := TrialStep(gs, attacked, moves, i, fixed);
      && DistinctIDs(s.1)
      && s.1 == (if Passes(gs, attacked, moves[i - 1]) then moves else moves[..i - 1] + moves[i..])
  {
    if Checked(Made(gs, moves[i - 1]), attacked) {
      RemoveFirstAt(moves, i - 1);
      DistinctIDsRemove(moves, i - 1);
    }
  }

  /** The loop is a filter: over distinct moves it keeps, in order, exactly the ones that
      pass among those it has tried and leaves the untried ones alone. */
  lemma {:induction false} TrialFilters(gs: GameState, attacked: AttackTest, moves: seq<Move>, i: int, fixed: bool)
    requires TrialReady(gs, moves, i) && DistinctIDs(moves) && ReadsPosition(attacked)
    decreases i
    ensures Trial(gs, attacked, moves, i, fixed).1 == Keep(gs, attacked, moves[..i]) + moves[i..]
  {
    if i == 0 {
      assert moves[..0] == [] && moves[0..] == moves;
    } else {
      var s := TrialStep(gs, attacked, moves, i, fixed);
      var pass := Passes(gs, attacked, moves[i - 1]);
      TrialStepShape(gs, attacked, moves, i, fixed);
      TrialFilters(s.0, attacked, s.1, i - 1, fixed);
      var prev := Keep(gs, attacked, moves[..i - 1]);
      KeepStep(gs, attacked, moves, i);
      Splice(moves, s.1, i, pass, prev);
      KeepAgrees(s.0, gs, attacked, moves[..i - 1]);
      var t := Trial(s.0, attacked, s.1, i - 1, fixed);
      assert Trial(gs, attacked, moves, i, fixed) == t;
      assert t.1 == prev + s.1[i - 1..];
    }
  }

  /** Filtering one more move of `moves` appends it if it passes. */
  lemma KeepStep(gs: GameState, attacked: AttackTest, moves: seq<Move>, i: int)
    requires 0 < i <= |moves|
    ensures Keep(gs, attacked, moves[..i]) ==
      Keep(gs, attacked, moves[..i - 1]) + (if Passes(gs, attacked, moves[i - 1]) then [moves[i - 1]] else [])
  {
    assert moves[..i][..i - 1] == moves[..i - 1];
  }

  /** The list arithmetic of one filtering step. */
  lemma Splice(moves: seq<Move>, kept: seq<Move>, i: int, pass: bool, prev: seq<Move>)
    requires 0 < i <= |moves| && kept == (if pass then moves else moves[..i - 1] + moves[i..])
    ensures kept[..i - 1] == moves[..i - 1]
    ensures prev + kept[i - 1..] == (prev + (if pass then [moves[i - 1]] else [])) + moves[i..]
  {
    if pass {
      assert kept[i - 1..] == [moves[i - 1]] + moves[i..];
    } else {
      assert kept[i - 1..] == moves[i..];
    }
  }

  /** `update_castle_rights` applied for each move of `ms`, last to first, as the as-written
      loop does. */
  function Drift(cr: CastleRights, ms: seq<Move>): CastleRights
    decreases |ms|
  {
    if |ms| == 0 then cr else Drift(UpdateCastleRights(cr, ms[|ms| - 1]), ms[..|ms| - 1])
  }

  /** The rights left after trying `ms` with `undo_move` as written: each flag survives only
      if no move of `ms` spoils it. */
  function DriftedRights(cr: CastleRights, ms: seq<Move>): CastleRights
  {
    CastleRights(
      cr.wks && (forall m :: m in ms ==> !LosesWks(m)),
      cr.bks && (forall m :: m in ms ==> !LosesBks(m)),
      cr.wqs && (forall m :: m in ms ==> !LosesWqs(m)),
      cr.bqs && (forall m :: m in ms ==> !LosesBqs(m)))
  }

  lemma {:induction false} DriftIsDrifted(cr: CastleRights, ms: seq<Move>)
    decreases |ms|
    ensures Drift(cr, ms) == DriftedRights(cr, ms)
  {
    if |ms| > 0 {
      var n := |ms| - 1;
      DriftIsDrifted(UpdateCastleRights(cr, ms[n]), ms[..n]);
      assert ms == ms[..n] + [ms[n]];
      assert forall m :: m in ms <==> m in ms[..n] || m == ms[n];
    }
  }

  /** With `undo_move` as written, the trial loop leaves the rights as if every tried move
      had been played. */
  lemma {:induction false} TrialDrift(gs: GameState, attacked: AttackTest, moves: seq<Move>, i: int)
    requires TrialReady(gs, moves, i) && DistinctIDs(moves)
    decreases i
    ensures Trial(gs, attacked, moves, i, false).0.rights == Drift(gs.rights, moves[..i])
  {
    if i > 0 {
      var s := TrialStep(gs, attacked, moves, i, false);
      StepKeepsTried(gs, attacked, moves, i, false);
      TrialDrift(s.0, attacked, s.1, i - 1);
      assert Trial(gs, attacked, moves, i, false) == Trial(s.0, attacked, s.1, i - 1, false);
      DriftStep(gs.rights, s.0.rights, moves, i);
    }
  }

  /** Spoiling the rights by the last of the first `i` moves and then by the others is
      spoiling them by all `i`. */
  lemma DriftStep(cr: CastleRights, next: CastleRights, moves: seq<Move>, i: int)
    requires 0 < i <= |moves| && next == UpdateCastleRights(cr, moves[i - 1])
    ensures Drift(cr, moves[..i]) == Drift(next, moves[..i - 1])
  {
    assert moves[..i][..i - 1] == moves[..i - 1];
  }

  /** A step of the loop leaves the moves it has yet to try where they were, and the IDs
      distinct. */
  lemma StepKeepsTried(gs: GameState, attacked: AttackTest, moves: seq<Move>, i: int, fixed: bool)
    requires 0 < i && TrialReady(gs, moves, i) && DistinctIDs(moves)
    ensures DistinctIDs(TrialStep(gs, attacked, moves, i, fixed).1)
    ensures TrialStep(gs, attacked, moves, i, fixed).1[..i - 1] == moves[..i - 1]
    ensures i > 1 ==> TrialStep(gs, attacked, moves, i, fixed).1[0] == moves[0]
  {
    TrialStepShape(gs, attacked, moves, i, fixed);
    var kept := TrialStep(gs, attacked, moves, i, fixed).1;
    if !Passes(gs, attacked, moves[i - 1]) {
      assert (moves[..i - 1] + moves[i..])[..i - 1] == moves[..i - 1];
    }
    if i > 1 {
      assert kept[0] == kept[..i - 1][0];
    }
  }

  /** The en-passant square the loop leaves is the one the last undo set: the target of
      `moves[0]` if that is an en-passant capture, none otherwise. */
  lemma {:induction false} TrialEp(gs: GameState, attacked: AttackTest, moves: seq<Move>, i: int, fixed: bool)
    requires TrialReady(gs, moves, i) && DistinctIDs(moves) && i > 0
    decreases i
    ensures Trial(gs, attacked, moves, i, fixed).0.ep ==
      (if moves[0].isEp then Some((moves[0].targetRow, moves[0].targetCol)) else None)
  {
    var s := TrialStep(gs, attacked, moves, i, fixed);
    assert Trial(gs, attacked, moves, i, fixed) == Trial(s.0, attacked, s.1, i - 1, fixed);
    if i > 1 {
      StepKeepsTried(gs, attacked, moves, i, fixed);
      TrialEp(s.0, attacked, s.1, i - 1, fixed);
    }
  }

  // ---------------------------------------------------------------------------------------
  // Castling

  predicate KingsideRight(gs: GameState)
  {
    if gs.whiteToMove then gs.rights.wks else gs.rights.bks
  }

  predicate QueensideRight(gs: GameState)
  {
    if gs.whiteToMove then gs.rights.wqs else gs.rights.bqs
  }

  /** Some castle in `ms` takes the king from (r, c) to column `tc` of its row. */
  predicate CastlesTo(ms: seq<Move>, r: int, c: int, tc: int)
  {
    exists m :: m in ms && m.isCastle && m.Start(r, c) && m.Target(r, tc)
  }

  /** The two squares toward the king's rook are empty and not attacked. */
  predicate KingsidePath(gs: GameState, attacked: AttackTest, r: int, c: int)
    requires OnBoard(r, c) && c + 2 < 8
  {
    && IsEmpty(gs.board, r, c + 1) && IsEmpty(gs.board, r, c + 2)
    && !attacked(gs, r, c + 1) && !attacked(gs, r, c + 2)
  }

  /** The three squares toward the queen's rook are empty and the two the king crosses are
      not attacked. */
  predicate QueensidePath(gs: GameState, attacked: AttackTest, r: int, c: int)
    requires OnBoard(r, c) && c >= 3
  {
    && IsEmpty(gs.board, r, c - 1) && IsEmpty(gs.board, r, c - 2) && IsEmpty(gs.board, r, c - 3)
    && !attacked(gs, r, c - 1) && !attacked(gs, r, c - 2)
  }

  /** `kgs_castling`. */
  function KgsCastling(gs: GameState, attacked: AttackTest, r: int, c: int): (ms: seq<Move>)
    requires OnBoard(r, c) && c + 2 < 8
    ensures forall m :: m in ms ==> m.isCastle && m.Start(r, c) && m.Target(r, c + 2)
    ensures forall m :: m in ms ==> m == NewMove(r, c, r, c + 2, gs.board, false, true)
    ensures |ms| > 0 <==> KingsidePath(gs, attacked, r, c)
  {
    if IsEmpty(gs.board, r, c + 1) && IsEmpty(gs.board, r, c + 2) then
      if !attacked(gs, r, c + 1) && !attacked(gs, r, c + 2) then
        [NewMove(r, c, r, c + 2, gs.board, false, true)]
      else []
    else []
  }

  /** `qs_castling`. */
  function QsCastling(gs: GameState, attacked: AttackTest, r: int, c: int): (ms: seq<Move>)
    requires OnBoard(r, c) && c >= 3
    ensures forall m :: m in ms ==> m.isCastle && m.Start(r, c) && m.Target(r, c - 2)
    ensures forall m :: m in ms ==> m == NewMove(r, c, r, c - 2, gs.board, false, true)
    ensures |ms| > 0 <==> QueensidePath(gs, attacked, r, c)
  {
    if && IsEmpty(gs.board, r, c - 1) && IsEmpty(gs.board, r, c - 2) && IsEmpty(gs.board, r, c - 3)
       && !attacked(gs, r, c - 1) && !attacked(gs, r, c - 2)
    then [NewMove(r, c, r, c - 2, gs.board, false, true)]
    else []
  }

  /** `castling`: nothing while the king's square is attacked; otherwise a castle on each
      side the side to move still has the right for and whose squares are clear. The source
      indexes two squares right and three squares left of the king, which the requires keep
      on the board. */
  function CastleMoves(gs: GameState, attacked: AttackTest, r: int, c: int): (ms: seq<Move>)
    requires OnBoard(r, c)
    requires KingsideRight(gs) ==> c + 2 < 8
    requires QueensideRight(gs) ==> c >= 3
    ensures forall m :: m in ms ==> m.isCastle && m.Start(r, c) && m.targetRow == r
    ensures forall m :: m in ms ==> (m.targetCol == c + 2 && KingsideRight(gs)) || (m.targetCol == c - 2 && QueensideRight(gs))
    ensures forall m :: m in ms ==> m == NewMove(r, c, r, m.targetCol, gs.board, false, true)
    ensures CastlesTo(ms, r, c, c + 2) <==>
      KingsideRight(gs) && !attacked(gs, r, c) && KingsidePath(gs, attacked, r, c)
    ensures CastlesTo(ms, r, c, c - 2) <==>
      QueensideRight(gs) && !attacked(gs, r, c) && QueensidePath(gs, attacked, r, c)
  {
    if attacked(gs, r, c) then []
    else
      var ks := if KingsideRight(gs) then KgsCastling(gs, attacked, r, c) else [];
      var qs := if QueensideRight(gs) then QsCastling(gs, attacked, r, c) else [];
      assert CastlesTo(ks, r, c, c + 2) ==> CastlesTo(ks + qs, r, c, c + 2);
      assert CastlesTo(qs, r, c, c - 2) ==> CastlesTo(ks + qs, r, c, c - 2);
      ks + qs
  }

  // ---------------------------------------------------------------------------------------
  // get_valid_moves

  lemma GeneratedPlayable(gs: GameState, m: Move)
    requires Sane(gs) && Generated(gs.board, gs.whiteToMove, gs.ep, m)
    ensures Playable(gs, m)
  {
    assert m.startRow != m.targetRow || m.startCol != m.targetCol by {
      if !m.isEp { assert !Team(gs.board, gs.whiteToMove, m.targetRow, m.targetCol); }
    }
    if m.isEp {
      assert gs.ep == Some((m.targetRow, m.targetCol));
    }
    if m.pieceMoved == Piece(White, King) {
      assert KingOn(gs.board, White, m.startRow, m.startCol);
    }
    if m.pieceMoved == Piece(Black, King) {
      assert KingOn(gs.board, Black, m.startRow, m.startCol);
    }
  }

  /** Every pseudo-legal move of a sane state can be made and taken back. */
  lemma AllPlayable(gs: GameState)
    requires Sane(gs)
    ensures TrialReady(gs, PossibleMoves(gs.board, gs.whiteToMove, gs.ep), |PossibleMoves(gs.board, gs.whiteToMove, gs.ep)|)
  {
    var moves := PossibleMoves(gs.board, gs.whiteToMove, gs.ep);
    forall k | 0 <= k < |moves|
      ensures Playable(gs, moves[k])
    {
      GeneratedPlayable(gs, moves[k]);
    }
  }

  /** The trial loop of `get_valid_moves`, run over every pseudo-legal move. */
  function TrialAll(gs: GameState, fixed: bool, attacked: AttackTest): (t: (GameState, seq<Move>))
    requires Sane(gs)
    ensures SamePosition(t.0, gs) && t.0.moveLog == gs.moveLog && t.0.rightsLog == gs.rightsLog
    ensures !fixed ==> Within(t.0.rights, gs.rights)
    ensures fixed && RightsLogged(gs) ==> t.0.rights == gs.rights
  {
    var moves := PossibleMoves(gs.board, gs.whiteToMove, gs.ep);
    AllPlayable(gs);
    Trial(gs, attacked, moves, |moves|, fixed)
  }

  /** The end-of-game check: with no move left, checkmate if the king is attacked and
      stalemate otherwise. */
  function MarkEnd(g: GameState, kept: seq<Move>, attacked: AttackTest): (g2: GameState)
    ensures g2.(checkmate := g.checkmate, stalemate := g.stalemate) == g
  {
    if |kept| == 0 then (if Checked(g, attacked) then g.(checkmate := true) else g.(stalemate := true))
    else g
  }

  /** Where `castling` can look: the king on the board, two squares to its right when a
      kingside right is held and three to its left when a queenside one is. */
  predicate CastleReady(g: GameState)
  {
    var k := KingSquare(g);
    && OnBoard(k.0, k.1)
    && (KingsideRight(g) ==> k.1 + 2 < 8)
    && (QueensideRight(g) ==> k.1 >= 3)
  }

  /** A sane state's rights, or fewer of them, keep the castling squares on the board. */
  lemma CastleReadyWithin(gs: GameState, g: GameState)
    requires Sane(gs) && SamePosition(g, gs) && Within(g.rights, gs.rights)
    ensures CastleReady(g)
  {
  }

  /** `castling` called on the square of the king of the side to move. */
  function KingCastles(g: GameState, attacked: AttackTest): seq<Move>
    requires CastleReady(g)
  {
    CastleMoves(g, attacked, KingSquare(g).0, KingSquare(g).1)
  }

  /** `get_valid_moves` under an attack test, with `undo_move` as written (`fixed == false`)
      or corrected. */
  function GetValidMovesWith(gs: GameState, fixed: bool, attacked: AttackTest): (res: (GameState, seq<Move>))
    requires Sane(gs) && (fixed ==> RightsLogged(gs))
    ensures res.0.(checkmate := gs.checkmate, stalemate := gs.stalemate) == gs
  {
    var t := TrialAll(gs, fixed, attacked);
    var g := MarkEnd(t.0, t.1, attacked);
    CastleReadyWithin(gs, g);
    (g.(ep := gs.ep, rights := gs.rights), t.1 + KingCastles(g, attacked))
  }

  /** `get_valid_moves` as written. */
  function GetValidMovesAsWritten(gs: GameState): (res: (GameState, seq<Move>))
    requires Sane(gs)
    ensures res.0.(checkmate := gs.checkmate, stalemate := gs.stalemate) == gs
  {
    GetValidMovesWith(gs, false, Attacked)
  }

  /** `get_valid_moves` as the rest of the model uses it: with the corrected undo. */
  function GetValidMoves(gs: GameState): (res: (GameState, seq<Move>))
    requires Sane(gs) && RightsLogged(gs)
    ensures res.0.(checkmate := gs.checkmate, stalemate := gs.stalemate) == gs
  {
    GetValidMovesWith(gs, true, Attacked)
  }
}
