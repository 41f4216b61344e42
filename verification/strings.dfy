/** The parts of Python's `str` and `int` that the FEN writer and reader rely on, over
    `seq<char>`: decimal digits, `str(n)`, `int(s)`, `find`, slicing, `split`, `replace` of a
    first occurrence, and letter case. Only ASCII digits and letters are modelled. */
module Strings {
  import opened Options

  predicate IsDigit(ch: char)
  {
    '0' <= ch <= '9'
  }

  function DigitValue(ch: char): (d: nat)
    requires IsDigit(ch)
    ensures d < 10
  {
    (ch as int - '0' as int) as nat
  }

  function DigitChar(d: nat): (ch: char)
    requires d < 10
    ensures IsDigit(ch) && DigitValue(ch) == d
  {
    ('0' as int + d) as char
  }

  predicate AllDigits(s: string)
  {
    forall i :: 0 <= i < |s| ==> IsDigit(s[i])
  }

  /** The number a string of decimal digits denotes, most significant digit first. */
  function Value(s: string): nat
    requires AllDigits(s)
  {
    if s == [] then 0 else Value(s[..|s| - 1]) * 10 + DigitValue(s[|s| - 1])
  }

  /** `str(n)` for a non-negative `n`: the shortest decimal numeral of `n`. */
  function NatToString(n: nat): (s: string)
    ensures |s| >= 1 && AllDigits(s) && Value(s) == n
    ensures n < 10 <==> |s| == 1
    ensures n < 10 ==> s == [DigitChar(n)]
    ensures |s| > 1 ==> s[0] != '0'
  {
    if n < 10 then [DigitChar(n)]
    else
      var s := NatToString(n / 10) + [DigitChar(n % 10)];
      assert s[..|s| - 1] == NatToString(n / 10);
      s
  }

  /** `int(s)` on an optional sign followed by decimal digits; `None` where Python raises
      `ValueError`. */
  function ParseInt(s: string): (r: Option<int>)
    ensures s == [] ==> r == None
    ensures s != [] && AllDigits(s) ==> r == Some(Value(s))
    ensures |s| > 1 && (s[0] == '-' || s[0] == '+') && AllDigits(s[1..]) ==>
      r == Some(if s[0] == '-' then -(Value(s[1..]) as int) else Value(s[1..]) as int)
    ensures r.Some? ==> AllDigits(s) || (|s| > 1 && (s[0] == '-' || s[0] == '+') && AllDigits(s[1..]))
  {
    if |s| > 1 && (s[0] == '-' || s[0] == '+') && AllDigits(s[1..]) then
      var v: int := Value(s[1..]);
      Some(if s[0] == '-' then -v else v)
    else if s != [] && AllDigits(s) then Some(Value(s))
    else None
  }

  /** `str(i)`: a minus sign before the digits of a negative number. */
  function IntToString(i: int): (s: string)
    ensures |s| >= 1 && ' ' !in s
    ensures s[0] == '-' <==> i < 0
  {
    if i < 0 then "-" + NatToString(-i) else NatToString(i)
  }

  /** `int(str(i)) == i`. */
  lemma IntToStringReadsBack(i: int)
    ensures ParseInt(IntToString(i)) == Some(i)
  {
    if i < 0 {
      var d := NatToString(-i);
      assert IntToString(i)[1..] == d;
    }
  }

  /** The number of occurrences of `ch` in `s`. */
  function Count(s: string, ch: char): (n: nat)
    ensures n <= |s|
    ensures n == 0 <==> ch !in s
  {
    if s == [] then 0 else (if s[0] == ch then 1 else 0) + Count(s[1..], ch)
  }

  lemma {:induction false} CountAppend(a: string, b: string, ch: char)
    ensures Count(a + b, ch) == Count(a, ch) + Count(b, ch)
  {
    if a == [] {
      assert a + b == b;
    } else {
      assert (a + b)[1..] == a[1..] + b;
      CountAppend(a[1..], b, ch);
    }
  }

  /** `s.find(ch, start)` for `start >= 0`: the first index from `start` on that holds
      `ch`, or -1 when there is none. */
  function Find(s: string, ch: char, start: nat): (i: int)
    decreases |s| - start
    ensures i == -1 || (start <= i < |s| && s[i] == ch)
    ensures i >= 0 ==> forall k :: start <= k < i ==> s[k] != ch
    ensures i == -1 <==> forall k :: start <= k < |s| ==> s[k] != ch
  {
    if start >= |s| then -1
    else if s[start] == ch then start
    else Find(s, ch, start + 1)
  }

  /** Python's slice bound: a negative bound counts from the end, and the result is clipped
      to the string. */
  function Clip(i: int, n: nat): (k: nat)
    ensures k <= n
    ensures 0 <= i <= n ==> k == i
  {
    if i < 0 then (if i + n < 0 then 0 else i + n) else if i > n then n else i
  }

  /** `s[a:b]`. */
  function Slice(s: string, a: int, b: int): (t: string)
    ensures 0 <= a <= b <= |s| ==> t == s[a..b]
  {
    var lo := Clip(a, |s|);
    var hi := Clip(b, |s|);
    if lo < hi then s[lo..hi] else []
  }

  /** `s[a:]`. */
  function SliceFrom(s: string, a: int): (t: string)
    ensures 0 <= a <= |s| ==> t == s[a..]
  {
    s[Clip(a, |s|)..]
  }

  /** `s.split(ch)` for a one-character separator: the pieces between the occurrences of
      `ch`, empty ones included. */
  function SplitOn(s: string, ch: char): (parts: seq<string>)
    decreases |s|
    ensures |parts| == Count(s, ch) + 1
    ensures forall i :: 0 <= i < |parts| ==> ch !in parts[i]
  {
    if ch in s then
      var i := Find(s, ch, 0);
      assert ch !in s[..i];
      Around(s, i);
      CountAppend(s[..i] + [ch], s[i + 1..], ch);
      CountAppend(s[..i], [ch], ch);
      [s[..i]] + SplitOn(s[i + 1..], ch)
    else
      [s]
  }

  /** The pieces with `ch` between each pair: the inverse of `SplitOn`. */
  function Join(parts: seq<string>, ch: char): string
    requires |parts| >= 1
  {
    if |parts| == 1 then parts[0] else parts[0] + [ch] + Join(parts[1..], ch)
  }

  lemma {:induction false} JoinSplit(s: string, ch: char)
    decreases |s|
    ensures Join(SplitOn(s, ch), ch) == s
  {
    if ch in s {
      var i := Find(s, ch, 0);
      SplitFirst(s, ch);
      JoinSplit(s[i + 1..], ch);
      JoinCons(s[..i], SplitOn(s[i + 1..], ch), ch);
    }
  }

  /** Where `ch` occurs, splitting cuts at its first occurrence. */
  lemma SplitFirst(s: string, ch: char)
    requires ch in s
    ensures var i := Find(s, ch, 0);
      && SplitOn(s, ch) == [s[..i]] + SplitOn(s[i + 1..], ch)
      && s == s[..i] + [ch] + s[i + 1..]
  {
    Around(s, Find(s, ch, 0));
  }

  /** A string is what comes before index `i`, the character at `i`, and what follows. */
  lemma Around(s: string, i: int)
    requires 0 <= i < |s|
    ensures s == s[..i] + [s[i]] + s[i + 1..]
  {
    assert s[..i] + [s[i]] == s[..i + 1];
  }

  lemma JoinCons(a: string, parts: seq<string>, ch: char)
    requires |parts| >= 1
    ensures Join([a] + parts, ch) == a + [ch] + Join(parts, ch)
  {
    assert ([a] + parts)[1..] == parts;
  }

  lemma {:induction false} SplitJoin(parts: seq<string>, ch: char)
    requires |parts| >= 1 && forall i :: 0 <= i < |parts| ==> ch !in parts[i]
    decreases |parts|
    ensures SplitOn(Join(parts, ch), ch) == parts
  {
    if |parts| > 1 {
      SplitCons(parts[0], ch, Join(parts[1..], ch));
      SplitJoin(parts[1..], ch);
      assert parts == [parts[0]] + parts[1..];
    }
  }

  /** Splitting text that starts with a piece free of `ch` and then `ch` gives that piece
      first. */
  lemma SplitCons(a: string, ch: char, rest: string)
    requires ch !in a
    ensures SplitOn(a + [ch] + rest, ch) == [a] + SplitOn(rest, ch)
  {
    var s := a + [ch] + rest;
    assert s[|a|] == ch;
    assert Find(s, ch, 0) == |a| by {
      assert forall k :: 0 <= k < |a| ==> s[k] == a[k];
    }
    assert s[..|a|] == a;
    assert s[|a| + 1..] == rest;
  }

  /** `s.replace(ch, "", 1)`: the first occurrence of `ch` removed. */
  function RemoveFirst(s: string, ch: char): (t: string)
    ensures ch !in s ==> t == s
    ensures ch in s ==> |t| == |s| - 1 && Count(t, ch) == Count(s, ch) - 1
    ensures ch in s ==> exists i :: 0 <= i < |s| && s[i] == ch && ch !in s[..i] && t == s[..i] + s[i + 1..]
  {
    if ch in s then
      var i := Find(s, ch, 0);
      Around(s, i);
      CountAppend(s[..i] + [ch], s[i + 1..], ch);
      CountAppend(s[..i], [ch], ch);
      CountAppend(s[..i], s[i + 1..], ch);
      assert s[i] == ch && ch !in s[..i];
      s[..i] + s[i + 1..]
    else s
  }

  predicate IsUpper(ch: char)
  {
    'A' <= ch <= 'Z'
  }

  predicate IsLower(ch: char)
  {
    'a' <= ch <= 'z'
  }

  /** `ch.lower()` on ASCII. */
  function Lower(ch: char): (l: char)
    ensures IsUpper(ch) ==> IsLower(l) && Upper(l) == ch
    ensures !IsUpper(ch) ==> l == ch
  {
    if IsUpper(ch) then (ch as int + 32) as char else ch
  }

  /** `ch.upper()` on ASCII. */
  function Upper(ch: char): (u: char)
    ensures IsLower(ch) ==> IsUpper(u)
    ensures !IsLower(ch) ==> u == ch
  {
    if IsLower(ch) then (ch as int - 32) as char else ch
  }
}
