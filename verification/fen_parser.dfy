/** fen_parser.py: `FenParser` reads the board back from the placement field of a FEN
    record, and the turn, castling, halfmove and fullmove fields by counting spaces. A Python
    exception (`IndexError` from indexing, `ValueError` from `int`) is `None`. */
module FenParser {
  import opened Options
  import opened Pieces
  import opened Boards
  import opened Strings

  // ---------------------------------------------------------------------------------------
  // parse_rank and parse

  /** The letters of the character class `[kqbnrpKQBNRP]`. */
  predicate IsPieceChar(ch: char)
  {
    ch in "kqbnrpKQBNRP"
  }

  /** `expand(num_str)`: `int(num_str) * " "`. */
  function Expand(d: char): (s: string)
    requires IsDigit(d)
    ensures |s| == DigitValue(d)
    ensures forall i :: 0 <= i < |s| ==> s[i] == ' '
  {
    seq(DigitValue(d), _ => ' ')
  }

  /** `expand_or_noop(piece_str)` on one token: a piece letter stays, a digit expands. */
  function ExpandOrNoop(tok: char): (s: string)
    requires IsPieceChar(tok) || IsDigit(tok)
    ensures IsPieceChar(tok) ==> s == [tok]
    ensures !IsPieceChar(tok) ==> s == Expand(tok)
  {
    if IsPieceChar(tok) then [tok] else Expand(tok)
  }

  /** `parse_rank(rank)`: `findall` with the pattern `(\d|[kqbnrpKQBNRP])` yields every
      digit and piece letter as a token of its own and skips every other character; each
      token goes through `expand_or_noop` and the results are flattened. The scan below
      does the three steps in one pass, left to right. */
  function ParseRank(rank: string): (cells: string)
    decreases |rank|
    ensures forall i :: 0 <= i < |cells| ==> IsPieceChar(cells[i]) || cells[i] == ' '
  {
    if rank == [] then []
    else
      var head := if IsPieceChar(rank[0]) || IsDigit(rank[0]) then ExpandOrNoop(rank[0]) else [];
      head + ParseRank(rank[1..])
  }

  /** The scan handles each part of a rank on its own. */
  lemma {:induction false} ParseRankAppend(a: string, b: string)
    decreases |a|
    ensures ParseRank(a + b) == ParseRank(a) + ParseRank(b)
  {
    if a != [] {
      assert (a + b)[0] == a[0] && (a + b)[1..] == a[1..] + b;
      ParseRankAppend(a[1..], b);
    } else {
      assert a + b == b;
    }
  }

  /** The kind whose code letter is `ch`. */
  function KindOf(ch: char): (k: Kind)
    requires ch in "PNBRQK"
    ensures KindLetter(k) == ch
  {
    match ch
    case 'P' => Pawn
    case 'N' => Knight
    case 'B' => Bishop
    case 'R' => Rook
    case 'Q' => Queen
    case 'K' => King
  }

  /** The code `parse` stores for one character of an expanded rank: "b" and the upper-cased
      letter for a lower-case letter, "w" and the letter for an upper-case one, "--" for
      anything else. */
  function CellOf(ch: char): (x: Cell)
    requires IsPieceChar(ch) || ch == ' '
    ensures ch == ' ' ==> x == Empty
    ensures IsLower(ch) ==> x.Piece? && x.color == Black && KindLetter(x.kind) == Upper(ch)
    ensures IsUpper(ch) ==> x.Piece? && x.color == White && KindLetter(x.kind) == ch
  {
    if IsLower(ch) then Piece(Black, KindOf(Upper(ch)))
    else if IsUpper(ch) then Piece(White, KindOf(ch))
    else Empty
  }

  /** `fen_str.split(" ")[0].split("/")`: the ranks of the placement field. */
  function Ranks(fen: string): seq<string>
  {
    SplitOn(SplitOn(fen, ' ')[0], '/')
  }

  /** The conditions under which `parse` indexes no square that is not there: eight ranks
      or more, and eight squares or more in each of the first eight. */
  predicate Indexable(ranks: seq<string>)
  {
    |ranks| >= 8 && forall i :: 0 <= i < 8 ==> |ParseRank(ranks[i])| >= 8
  }

  /** `parse()`: the eight first ranks, each expanded and its first eight characters
      turned into codes; `None` where the loop would raise `IndexError`. */
  function Parse(fen: string): (r: Option<Board>)
    ensures r.Some? <==> Indexable(Ranks(fen))
    ensures r.Some? ==> forall row, col :: OnBoard(row, col) ==>
      At(r.value, row, col) == CellOf(ParseRank(Ranks(fen)[row])[col])
  {
    var ranks := Ranks(fen);
    if !Indexable(ranks) then None
    else
      var grid := seq(8, row requires 0 <= row < 8 =>
        seq(8, col requires 0 <= col < 8 => CellOf(ParseRank(ranks[row])[col])));
      Some(grid)
  }

  // ---------------------------------------------------------------------------------------
  // find_nth and the four field readers

  /** The loop of `find_nth`: while an occurrence was found and more are wanted, look for the
      next one after it. */
  function FindMore(s: string, ch: char, index: int, n: int): (i: int)
    requires index == -1 || (0 <= index < |s| && s[index] == ch)
    decreases if n > 1 then n else 0
    ensures i == -1 || (0 <= i < |s| && s[i] == ch)
  {
    if index >= 0 && n > 1 then FindMore(s, ch, Find(s, ch, index + 1), n - 1) else index
  }

  /** `find_nth(string, char, n)`. */
  function FindNth(s: string, ch: char, n: int): (i: int)
    ensures i == -1 || (0 <= i < |s| && s[i] == ch)
  {
    FindMore(s, ch, Find(s, ch, 0), n)
  }

  lemma CountStep(s: string, ch: char, i: int)
    requires 0 <= i < |s|
    ensures Count(s[..i + 1], ch) == Count(s[..i], ch) + (if s[i] == ch then 1 else 0)
  {
    assert s[..i + 1] == s[..i] + [s[i]];
    CountAppend(s[..i], [s[i]], ch);
  }

  /** Over a stretch without `ch` the count of a prefix does not change; over any stretch it
      does not drop. */
  lemma CountPrefixes(s: string, ch: char, a: int, b: int)
    requires 0 <= a <= b <= |s|
    ensures Count(s[..a], ch) <= Count(s[..b], ch)
    ensures (forall k :: a <= k < b ==> s[k] != ch) ==> Count(s[..b], ch) == Count(s[..a], ch)
  {
    assert s[..b] == s[..a] + s[a..b];
    CountAppend(s[..a], s[a..b], ch);
    if forall k :: a <= k < b ==> s[k] != ch {
      assert ch !in s[a..b];
    }
  }

  lemma {:induction false} FindMoreCounts(s: string, ch: char, index: int, n: int, m: int)
    requires n >= 1 && m >= 1
    requires 0 <= index < |s| && s[index] == ch && Count(s[..index], ch) == m - 1
    decreases n
    ensures FindMore(s, ch, index, n) >= 0 ==> Count(s[..FindMore(s, ch, index, n)], ch) == m + n - 2
    ensures FindMore(s, ch, index, n) == -1 <==> Count(s, ch) < m + n - 1
  {
    var next := Find(s, ch, index + 1);
    if n == 1 {
      AtLeastUpTo(s, ch, index, m);
    } else if next >= 0 {
      assert FindMore(s, ch, index, n) == FindMore(s, ch, next, n - 1);
      CountAtNext(s, ch, index, m);
      FindMoreCounts(s, ch, next, n - 1, m + 1);
    } else {
      assert FindMore(s, ch, index, n) == -1;
      CountAtLast(s, ch, index, m);
    }
  }

  /** The `m`-th occurrence at `index` means at least `m` in all. */
  lemma AtLeastUpTo(s: string, ch: char, index: int, m: int)
    requires 0 <= index < |s| && s[index] == ch && Count(s[..index], ch) == m - 1
    ensures Count(s, ch) >= m
  {
    assert s[..|s|] == s;
    CountsIncrease(s, ch, index, |s|);
  }

  /** The next occurrence after the `m`-th is the `m + 1`-th. */
  lemma CountAtNext(s: string, ch: char, index: int, m: int)
    requires 0 <= index < |s| && s[index] == ch && Count(s[..index], ch) == m - 1
    requires Find(s, ch, index + 1) >= 0
    ensures Count(s[..Find(s, ch, index + 1)], ch) == m
  {
    CountStep(s, ch, index);
    CountPrefixes(s, ch, index + 1, Find(s, ch, index + 1));
  }

  /** With no occurrence after the `m`-th, there are `m` in all. */
  lemma CountAtLast(s: string, ch: char, index: int, m: int)
    requires 0 <= index < |s| && s[index] == ch && Count(s[..index], ch) == m - 1
    requires Find(s, ch, index + 1) == -1
    ensures Count(s, ch) == m
  {
    assert s[..|s|] == s;
    CountStep(s, ch, index);
    CountPrefixes(s, ch, index + 1, |s|);
  }

  /** `find_nth(s, ch, n)` for `n >= 1` is the index of the `n`-th occurrence of `ch`: it
      holds `ch` with `n - 1` occurrences before it; it is -1 exactly when there are fewer
      than `n`. */
  lemma FindNthOccurrence(s: string, ch: char, n: int)
    requires n >= 1
    ensures var i := FindNth(s, ch, n);
      && (i >= 0 ==> s[i] == ch && Count(s[..i], ch) == n - 1)
      && (i == -1 <==> Count(s, ch) < n)
  {
    var first := Find(s, ch, 0);
    if first >= 0 {
      CountPrefixes(s, ch, 0, first);
      assert s[..0] == [];
      FindMoreCounts(s, ch, first, n, 1);
    } else {
      assert ch !in s;
    }
  }

  /** Only one index can hold the `n`-th occurrence, so `find_nth` finds it there. */
  lemma FindNthAt(s: string, ch: char, n: int, i: int)
    requires n >= 1 && 0 <= i < |s| && s[i] == ch && Count(s[..i], ch) == n - 1
    ensures FindNth(s, ch, n) == i
  {
    FindNthOccurrence(s, ch, n);
    var j := FindNth(s, ch, n);
    if j == -1 {
      assert s[..|s|] == s;
      CountsIncrease(s, ch, i, |s|);
    } else if j < i {
      CountsIncrease(s, ch, j, i);
    } else if j > i {
      CountsIncrease(s, ch, i, j);
    }
  }

  /** Past an occurrence of `ch`, prefixes hold more of it. */
  lemma CountsIncrease(s: string, ch: char, a: int, b: int)
    requires 0 <= a < b <= |s| && s[a] == ch
    ensures Count(s[..a], ch) < Count(s[..b], ch)
  {
    CountStep(s, ch, a);
    CountPrefixes(s, ch, a + 1, b);
  }

  /** `turn()`: the character after the first space. */
  function Turn(fen: string): (r: Option<char>)
  {
    var start := FindNth(fen, ' ', 1);
    if start + 1 < |fen| then Some(fen[start + 1]) else None
  }

  /** `castle()`: the text between the second and the third space. */
  function Castle(fen: string): string
  {
    Slice(fen, FindNth(fen, ' ', 2) + 1, FindNth(fen, ' ', 3))
  }

  /** `halfmove_clock()`: the number between the fourth and the fifth space. */
  function HalfmoveClock(fen: string): Option<int>
  {
    ParseInt(HalfmoveText(fen))
  }

  /** The text `halfmove_clock()` hands to `int`. */
  function HalfmoveText(fen: string): string
  {
    Slice(fen, FindNth(fen, ' ', 4) + 1, FindNth(fen, ' ', 5))
  }

  /** `fullmove_number()`: the number after the fifth space. */
  function FullmoveNumber(fen: string): Option<int>
  {
    ParseInt(FullmoveText(fen))
  }

  /** The text `fullmove_number()` hands to `int`. */
  function FullmoveText(fen: string): string
  {
    SliceFrom(fen, FindNth(fen, ' ', 5) + 1)
  }
}
