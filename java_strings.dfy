/**
 * The java.lang.String and Integer operations the planner's helpers use:
 * index search, prefix and suffix tests, ASCII case mapping, decimal
 * rendering of integers, splitting on separators and ordering.
 */
module JavaStrings {

  /** No character of t is a separator. */
  predicate NoneIn(t: string, seps: set<char>) {
    forall i :: 0 <= i < |t| ==> t[i] !in seps
  }

  /** The index of the first separator in s, or -1 (String.indexOf for one separator). */
  function IndexOfAny(s: string, seps: set<char>): (r: int)
    ensures -1 <= r < |s|
    ensures r == -1 <==> NoneIn(s, seps)
    ensures r >= 0 ==> s[r] in seps && NoneIn(s[..r], seps)
  {
    if s == [] then -1
    else if s[0] in seps then 0
    else
      var k := IndexOfAny(s[1..], seps);
      assert forall i :: 1 <= i < |s| ==> s[i] == s[1..][i - 1];
      if k == -1 then -1 else k + 1
  }

  predicate StartsWith(s: string, prefix: string) {
    |prefix| <= |s| && s[..|prefix|] == prefix
  }

  predicate EndsWith(s: string, suffix: string) {
    |suffix| <= |s| && s[|s| - |suffix|..] == suffix
  }

  /** Character.toUpperCase restricted to ASCII letters. */
  function UpperChar(c: char): char {
    if 'a' <= c <= 'z' then (c as int - 32) as char else c
  }

  function LowerChar(c: char): char {
    if 'A' <= c <= 'Z' then (c as int + 32) as char else c
  }

  /** String.toUpperCase on ASCII text. */
  function ToUpper(s: string): (r: string)
    ensures |r| == |s| && forall i :: 0 <= i < |s| ==> r[i] == UpperChar(s[i])
  {
    seq(|s|, i requires 0 <= i < |s| => UpperChar(s[i]))
  }

  /** String.toLowerCase on ASCII text. */
  function ToLower(s: string): (r: string)
    ensures |r| == |s| && forall i :: 0 <= i < |s| ==> r[i] == LowerChar(s[i])
  {
    seq(|s|, i requires 0 <= i < |s| => LowerChar(s[i]))
  }

  /** Upper-casing twice is upper-casing once. */
  lemma ToUpperIdempotent(s: string)
    ensures ToUpper(ToUpper(s)) == ToUpper(s)
  {
    forall i | 0 <= i < |s|
      ensures UpperChar(UpperChar(s[i])) == UpperChar(s[i])
    {
    }
  }

  // ---------------------------------------------------------------- decimal

  function DigitChar(d: nat): char
    requires d < 10
  {
    ('0' as int + d) as char
  }

  predicate IsDigit(c: char) {
    '0' as int <= c as int <= '9' as int
  }

  function DigitValue(c: char): (d: nat)
    requires IsDigit(c)
    ensures d < 10
  {
    c as int - '0' as int
  }

  /** The decimal digits of n, most significant first, with no leading zero. */
  function Digits(n: nat): (r: string)
    ensures |r| > 0 && forall i :: 0 <= i < |r| ==> IsDigit(r[i])
    decreases n
  {
    if n < 10 then [DigitChar(n)] else Digits(n / 10) + [DigitChar(n % 10)]
  }

  /** Integer.toString: a minus sign for a negative value, then the digits. */
  function IntToString(n: int): (r: string)
    ensures |r| > 0 && forall i :: 0 <= i < |r| ==> IsDigit(r[i]) || r[i] == '-'
  {
    if n < 0 then "-" + Digits(-n) else Digits(n)
  }

  /** The value of a string of digits. */
  function ParseDigits(s: string): nat
    requires forall i :: 0 <= i < |s| ==> IsDigit(s[i])
  {
    if s == [] then 0
    else ParseDigits(s[..|s| - 1]) * 10 + DigitValue(s[|s| - 1])
  }

  /** Integer.parseInt on what IntToString produces. */
  function ParseInt(s: string): int
    requires |s| > 0 && forall i :: 0 <= i < |s| ==> IsDigit(s[i]) || (i == 0 && s[i] == '-')
  {
    if s[0] == '-' then -(ParseDigits(s[1..]) as int) else ParseDigits(s)
  }

  lemma {:induction false} DigitsRoundTrip(n: nat)
    ensures ParseDigits(Digits(n)) == n
    decreases n
  {
    if n >= 10 {
      DigitsRoundTrip(n / 10);
      var d := Digits(n);
      assert d[..|d| - 1] == Digits(n / 10);
    }
  }

  /** Parsing the decimal rendering of an integer gives the integer back. */
  lemma IntToStringRoundTrip(n: int)
    ensures ParseInt(IntToString(n)) == n
  {
    var r := IntToString(n);
    if n < 0 {
      assert r[1..] == Digits(-n);
      DigitsRoundTrip(-n);
    } else {
      DigitsRoundTrip(n);
    }
  }

  /** Distinct integers render differently. */
  lemma IntToStringInjective(a: int, b: int)
    requires IntToString(a) == IntToString(b)
    ensures a == b
  {
    IntToStringRoundTrip(a);
    IntToStringRoundTrip(b);
  }

  // ---------------------------------------------------------------- splitting

  /** The pieces of s between single separator characters, in order; at least one. */
  function Pieces(s: string, seps: set<char>): (r: seq<string>)
    ensures |r| >= 1
    decreases |s|
  {
    var i := IndexOfAny(s, seps);
    if i == -1 then [s] else [s[..i]] + Pieces(s[i + 1..], seps)
  }

  /** No piece holds a separator. */
  lemma {:induction false} PiecesNoneIn(s: string, seps: set<char>)
    ensures forall k :: 0 <= k < |Pieces(s, seps)| ==> NoneIn(Pieces(s, seps)[k], seps)
    decreases |s|
  {
    var i := IndexOfAny(s, seps);
    if i != -1 {
      PiecesNoneIn(s[i + 1..], seps);
      PiecesUnfold(s, seps, i);
    }
  }

  /** The parts joined with sep between them. */
  function Join(parts: seq<string>, sep: char): string {
    if parts == [] then ""
    else if |parts| == 1 then parts[0]
    else parts[0] + [sep] + Join(parts[1..], sep)
  }

  /** Join of a first part followed by at least one more part. */
  lemma JoinCons(a: string, rest: seq<string>, sep: char)
    requires |rest| >= 1
    ensures Join([a] + rest, sep) == a + [sep] + Join(rest, sep)
  {
    assert ([a] + rest)[1..] == rest;
  }

  /** Joining the pieces with their one separator gives the string back. */
  lemma {:induction false} PiecesJoin(s: string, c: char)
    ensures Join(Pieces(s, {c}), c) == s
    decreases |s|
  {
    var seps := {c};
    var i := IndexOfAny(s, seps);
    if i != -1 {
      var tail := s[i + 1..];
      PiecesJoin(tail, c);
      var rest := Pieces(tail, seps);
      PiecesUnfold(s, seps, i);
      JoinCons(s[..i], rest, c);
      SplitAround(s, i, c);
      assert Join(Pieces(s, seps), c) == s[..i] + [c] + tail;
    } else {
      assert Pieces(s, seps) == [s];
    }
  }

  /** Pieces at the first separator: the prefix before it, then the pieces of the rest. */
  lemma PiecesUnfold(s: string, seps: set<char>, i: int)
    requires i == IndexOfAny(s, seps) && i != -1
    ensures Pieces(s, seps) == [s[..i]] + Pieces(s[i + 1..], seps)
  {
  }

  /** A string is its prefix before i, the character at i, and its suffix after i. */
  lemma SplitAround(s: string, i: int, c: char)
    requires 0 <= i < |s| && s[i] == c
    ensures s == s[..i] + [c] + s[i + 1..]
  {
    assert s[..i] + [c] == s[..i + 1];
  }

  /** When s does not end in a separator, neither does its last piece end up empty. */
  lemma {:induction false} PiecesLastNonEmpty(s: string, seps: set<char>)
    requires s != [] && s[|s| - 1] !in seps
    ensures Pieces(s, seps)[|Pieces(s, seps)| - 1] != ""
    decreases |s|
  {
    var i := IndexOfAny(s, seps);
    if i != -1 {
      assert i < |s| - 1;
      var t := s[i + 1..];
      assert t[|t| - 1] == s[|s| - 1];
      PiecesLastNonEmpty(t, seps);
    }
  }

  /** The pieces after the first that are not empty: a run of separators counts as one. */
  function NonEmpty(parts: seq<string>): (r: seq<string>)
    ensures forall k :: 0 <= k < |r| ==> r[k] != "" && r[k] in parts
  {
    if parts == [] then []
    else if parts[0] == "" then NonEmpty(parts[1..])
    else [parts[0]] + NonEmpty(parts[1..])
  }

  /** The trailing empty strings removed, as String.split does. */
  function DropTrailingEmpty(parts: seq<string>): (r: seq<string>)
    ensures |r| <= |parts| && r == parts[..|r|]
    ensures r == [] || r[|r| - 1] != ""
    ensures forall k :: |r| <= k < |parts| ==> parts[k] == ""
  {
    if parts != [] && parts[|parts| - 1] == "" then DropTrailingEmpty(parts[..|parts| - 1]) else parts
  }

  /**
   * String.split on a pattern of one separator character (collapse false)
   * or of a run of separator characters (collapse true): s itself when no
   * separator occurs, else the pieces without the trailing empty ones.
   */
  function Split(s: string, seps: set<char>, collapse: bool): (r: seq<string>)
    ensures forall k :: 0 <= k < |r| ==> NoneIn(r[k], seps)
    ensures NoneIn(s, seps) ==> r == [s]
  {
    if NoneIn(s, seps) then [s]
    else
      var p := Pieces(s, seps);
      PiecesNoneIn(s, seps);
      DropTrailingEmpty(if collapse then [p[0]] + NonEmpty(p[1..]) else p)
  }

  /** Splitting on one character and joining back gives s, unless s ends with that character. */
  lemma SplitJoin(s: string, c: char)
    requires s != [] && s[|s| - 1] != c
    ensures Join(Split(s, {c}, false), c) == s
  {
    PiecesJoin(s, c);
    if !NoneIn(s, {c}) {
      PiecesLastNonEmpty(s, {c});
    }
  }

  // ---------------------------------------------------------------- ordering

  /** String.compareTo(a, b) <= 0: a is a prefix of b, or smaller at the first difference. */
  predicate LexLe(a: string, b: string) {
    if a == [] then true
    else if b == [] then false
    else if a[0] != b[0] then a[0] < b[0]
    else LexLe(a[1..], b[1..])
  }

  lemma {:induction false} LexTotal(a: string, b: string)
    ensures LexLe(a, b) || LexLe(b, a)
  {
    if a != [] && b != [] && a[0] == b[0] {
      LexTotal(a[1..], b[1..]);
    }
  }

  /** Each string is no greater than the next. */
  predicate Sorted(s: seq<string>) {
    forall i :: 0 < i < |s| ==> LexLe(s[i - 1], s[i])
  }

  /** x inserted before the first element it does not exceed. */
  function Insert(x: string, s: seq<string>): (r: seq<string>)
    ensures multiset(r) == multiset(s) + multiset{x}
    ensures |r| > 0 && (r[0] == x || (s != [] && r[0] == s[0]))
  {
    if s == [] then [x]
    else if LexLe(x, s[0]) then [x] + s
    else
      var rest := Insert(x, s[1..]);
      assert s == [s[0]] + s[1..];
      [s[0]] + rest
  }

  /** Inserting into a sorted sequence keeps it sorted. */
  lemma {:induction false} InsertSorted(x: string, s: seq<string>)
    requires Sorted(s)
    ensures Sorted(Insert(x, s))
  {
    if s != [] && !LexLe(x, s[0]) {
      LexTotal(x, s[0]);
      var tail := s[1..];
      assert Sorted(tail) by {
        forall i | 0 < i < |tail|
          ensures LexLe(tail[i - 1], tail[i])
        {
          assert tail[i - 1] == s[i] && tail[i] == s[i + 1];
        }
      }
      InsertSorted(x, tail);
      var rest := Insert(x, tail);
      var r := Insert(x, s);
      assert r == [s[0]] + rest;
      forall i | 0 < i < |r|
        ensures LexLe(r[i - 1], r[i])
      {
        if i > 1 {
          assert r[i - 1] == rest[i - 2] && r[i] == rest[i - 1];
        }
      }
    }
  }

  /** List.sort with String::compareTo: the same strings, in order. */
  function SortStrings(s: seq<string>): (r: seq<string>)
    ensures Sorted(r) && multiset(r) == multiset(s)
  {
    if s == [] then []
    else
      assert s == [s[0]] + s[1..];
      InsertSorted(s[0], SortStrings(s[1..]));
      Insert(s[0], SortStrings(s[1..]))
  }
}
