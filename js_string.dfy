/**
 * The JavaScript string routines that the frontend and the worker rely on
 * (`trim`, `startsWith`, `indexOf`, `includes`, `split`, `toLowerCase`,
 * template-literal number formatting), stated over `seq<char>`.
 */
module JsString {

  datatype Option<T> = None | Some(value: T)

  /** The URL schemes the frontend tests for, in lower case. */
  const HttpScheme := "http://"
  const HttpsScheme := "https://"

  /** WhiteSpace or LineTerminator, the characters that `String.prototype.trim` removes. */
  predicate IsSpace(c: char) {
    || c == '\t' || c == '\n' || c == '\U{000B}' || c == '\U{000C}' || c == '\r' || c == ' '
    || c == '\U{00A0}' || c == '\U{1680}' || ('\U{2000}' <= c <= '\U{200A}')
    || c == '\U{2028}' || c == '\U{2029}' || c == '\U{202F}' || c == '\U{205F}'
    || c == '\U{3000}' || c == '\U{FEFF}'
  }

  predicate AllSpace(s: string) {
    forall i :: 0 <= i < |s| ==> IsSpace(s[i])
  }

  /** Neither end of `s` is whitespace. */
  predicate IsTrimmed(s: string) {
    s == [] || (!IsSpace(s[0]) && !IsSpace(s[|s| - 1]))
  }

  /** The first position at or after `i` that does not hold whitespace, or `|s|`. */
  function SkipSpace(s: string, i: nat): (j: nat)
    requires i <= |s|
    ensures i <= j <= |s| && (j == |s| || !IsSpace(s[j]))
    decreases |s| - i
  {
    if i < |s| && IsSpace(s[i]) then SkipSpace(s, i + 1) else i
  }

  /** Everything skipped is whitespace. */
  lemma {:induction false} SkipSpaceSkipsSpace(s: string, i: nat)
    requires i <= |s|
    ensures forall k :: i <= k < SkipSpace(s, i) ==> IsSpace(s[k])
    decreases |s| - i
  {
    if i < |s| && IsSpace(s[i]) {
      SkipSpaceSkipsSpace(s, i + 1);
    }
  }

  /** One past the last position before `j` that does not hold whitespace, or 0. */
  function BackSpace(s: string, j: nat): (i: nat)
    requires j <= |s|
    ensures i <= j && (i == 0 || !IsSpace(s[i - 1]))
  {
    if j > 0 && IsSpace(s[j - 1]) then BackSpace(s, j - 1) else j
  }

  /** Everything stepped over is whitespace. */
  lemma {:induction false} BackSpaceSkipsSpace(s: string, j: nat)
    requires j <= |s|
    ensures forall k :: BackSpace(s, j) <= k < j ==> IsSpace(s[k])
  {
    if j > 0 && IsSpace(s[j - 1]) {
      BackSpaceSkipsSpace(s, j - 1);
    }
  }

  /** `s.trimStart()`: a suffix of `s` that does not begin with whitespace. */
  function TrimStart(s: string): (r: string)
    ensures |r| <= |s| && r == s[|s| - |r|..]
    ensures r == [] || !IsSpace(r[0])
  {
    s[SkipSpace(s, 0)..]
  }

  /** `s.trimEnd()`: a prefix of `s` that does not end with whitespace. */
  function TrimEnd(s: string): (r: string)
    ensures |r| <= |s| && r == s[..|r|]
    ensures r == [] || !IsSpace(r[|r| - 1])
  {
    s[..BackSpace(s, |s|)]
  }

  /** `s.trim()`: whitespace at neither end of the result. */
  function Trim(s: string): (r: string)
    ensures IsTrimmed(r) && |r| <= |s|
  {
    TrimEnd(TrimStart(s))
  }

  /**
   * What `trim` removes: the result is the part of `s` at offset `lo`, and
   * everything before and after it is whitespace.
   */
  lemma TrimBounds(s: string) returns (lo: nat)
    ensures lo + |Trim(s)| <= |s| && s[lo..lo + |Trim(s)|] == Trim(s)
    ensures AllSpace(s[..lo]) && AllSpace(s[lo + |Trim(s)|..])
  {
    lo := SkipSpace(s, 0);
    var t := s[lo..];
    var hi := BackSpace(t, |t|);
    SkipSpaceSkipsSpace(s, 0);
    BackSpaceSkipsSpace(t, |t|);
    SpacePrefix(s, lo);
    SpaceSuffix(t, hi);
    SliceOfSlice(s, lo, hi);
  }

  lemma SpacePrefix(s: string, n: nat)
    requires n <= |s| && forall k :: 0 <= k < n ==> IsSpace(s[k])
    ensures AllSpace(s[..n])
  {
  }

  lemma SpaceSuffix(s: string, n: nat)
    requires n <= |s| && forall k :: n <= k < |s| ==> IsSpace(s[k])
    ensures AllSpace(s[n..])
  {
    forall k | 0 <= k < |s| - n ensures IsSpace(s[n..][k]) {
      assert s[n..][k] == s[n + k];
    }
  }

  lemma SliceOfSlice(s: string, lo: nat, hi: nat)
    requires lo + hi <= |s|
    ensures s[lo..][..hi] == s[lo..lo + hi] && s[lo..][hi..] == s[lo + hi..]
  {
  }

  /** Trimming an already trimmed string changes nothing. */
  lemma TrimTrimmed(s: string)
    requires IsTrimmed(s)
    ensures Trim(s) == s
  {
  }

  lemma TrimIdempotent(s: string)
    ensures Trim(Trim(s)) == Trim(s)
  {
    TrimTrimmed(Trim(s));
  }

  /** The trimmed string is empty exactly when the whole string is whitespace. */
  lemma TrimEmpty(s: string)
    ensures Trim(s) == [] <==> AllSpace(s)
  {
    var lo := TrimBounds(s);
    if Trim(s) == [] {
      forall i | 0 <= i < |s| ensures IsSpace(s[i]) {
        if i < lo { assert s[..lo][i] == s[i]; } else { assert s[lo..][i - lo] == s[i]; }
      }
    } else {
      assert s[lo] == Trim(s)[0];
    }
  }

  /** `s.startsWith(prefix)`. */
  predicate StartsWith(s: string, prefix: string) {
    |prefix| <= |s| && s[..|prefix|] == prefix
  }

  /** The first position at or after `i` holding `c`, or -1. */
  function IndexFrom(s: string, c: char, i: nat): (r: int)
    requires i <= |s|
    ensures r == -1 || (i <= r < |s| && s[r] == c)
    decreases |s| - i
  {
    if i == |s| then -1
    else if s[i] == c then i
    else IndexFrom(s, c, i + 1)
  }

  /** Every position passed over does not hold `c`. */
  lemma {:induction false} IndexFromFirst(s: string, c: char, i: nat)
    requires i <= |s|
    ensures var r := IndexFrom(s, c, i);
            forall j :: i <= j < (if r == -1 then |s| else r) ==> s[j] != c
    decreases |s| - i
  {
    if i < |s| && s[i] != c {
      IndexFromFirst(s, c, i + 1);
    }
  }

  /** `s.indexOf(c)` for a one-character needle: a position holding `c`, or -1. */
  function IndexOf(s: string, c: char): (r: int)
    ensures -1 <= r < |s|
    ensures 0 <= r ==> s[r] == c
  {
    IndexFrom(s, c, 0)
  }

  /** The position is the first one holding `c`, and -1 means `c` does not occur. */
  lemma IndexOfFirst(s: string, c: char)
    ensures IndexOf(s, c) == -1 ==> c !in s
    ensures forall j :: 0 <= j < IndexOf(s, c) ==> s[j] != c
  {
    IndexFromFirst(s, c, 0);
  }

  /** The text before the first `c` holds no `c`. */
  lemma IndexOfPrefixFree(s: string, c: char)
    requires 0 <= IndexOf(s, c)
    ensures c !in s[..IndexOf(s, c)]
  {
    IndexOfFirst(s, c);
  }

  lemma IndexOfJoined(a: string, c: char, b: string)
    requires c !in a
    ensures IndexOf(a + [c] + b, c) == |a|
  {
    var s := a + [c] + b;
    IndexOfFirst(s, c);
    assert s[|a|] == c;
    assert forall j :: 0 <= j < |a| ==> s[j] == a[j];
  }

  /** `s.includes(t)`: `t` occurs somewhere in `s`. */
  predicate Includes(s: string, t: string) {
    exists i: nat :: i <= |s| && OccursAt(s, t, i)
  }

  /** `t` occurs in `s` at position `i`. */
  predicate OccursAt(s: string, t: string, i: nat) {
    i + |t| <= |s| && s[i..i + |t|] == t
  }

  /** `c.toLowerCase()` on the ASCII letters. */
  function LowerChar(c: char): char {
    if 'A' <= c <= 'Z' then (c as int + 32) as char else c
  }

  /** `s.toLowerCase()`, restricted to ASCII case folding. */
  function ToLower(s: string): (r: string)
    ensures |r| == |s|
    ensures forall i :: 0 <= i < |s| ==> r[i] == LowerChar(s[i])
  {
    seq(|s|, i requires 0 <= i < |s| => LowerChar(s[i]))
  }

  /** `s.split(sep)` for a one-character separator: the pieces between the separators. */
  function Split(s: string, sep: char): (parts: seq<string>)
    ensures |parts| >= 1
    decreases |s|
  {
    var k := IndexOf(s, sep);
    if k < 0 then [s] else [s[..k]] + Split(s[k + 1..], sep)
  }

  /** A string with the separator splits at its first occurrence. */
  lemma SplitAt(s: string, sep: char)
    requires 0 <= IndexOf(s, sep)
    ensures var k := IndexOf(s, sep);
            Split(s, sep) == [s[..k]] + Split(s[k + 1..], sep)
  {
  }

  lemma Around(s: string, k: nat)
    requires k < |s|
    ensures s == s[..k] + [s[k]] + s[k + 1..]
  {
  }

  lemma LastOfCons<T>(x: T, xs: seq<T>)
    requires xs != []
    ensures ([x] + xs)[|xs|] == xs[|xs| - 1]
  {
  }

  /** A string without the separator is its own single piece. */
  lemma SplitNone(s: string, sep: char)
    requires IndexOf(s, sep) < 0
    ensures Split(s, sep) == [s]
  {
  }

  /** No piece of a split holds the separator. */
  lemma {:induction false} SplitPieces(s: string, sep: char)
    ensures forall i :: 0 <= i < |Split(s, sep)| ==> sep !in Split(s, sep)[i]
    decreases |s|
  {
    var k := IndexOf(s, sep);
    if k >= 0 {
      SplitAt(s, sep);
      IndexOfPrefixFree(s, sep);
      SplitPieces(s[k + 1..], sep);
    } else {
      SplitNone(s, sep);
      IndexOfFirst(s, sep);
    }
  }

  /** `parts.join(sep)`. */
  function Join(parts: seq<string>, sep: char): string
  {
    if parts == [] then ""
    else if |parts| == 1 then parts[0]
    else parts[0] + [sep] + Join(parts[1..], sep)
  }

  lemma JoinCons(p: string, ps: seq<string>, sep: char)
    requires ps != []
    ensures Join([p] + ps, sep) == p + [sep] + Join(ps, sep)
  {
    assert ([p] + ps)[1..] == ps;
  }

  /** Joining the pieces of a split gives back the original string. */
  lemma {:induction false} JoinSplit(s: string, sep: char)
    ensures Join(Split(s, sep), sep) == s
    decreases |s|
  {
    var k := IndexOf(s, sep);
    if k >= 0 {
      var p, rest := s[..k], s[k + 1..];
      SplitAt(s, sep);
      Around(s, k);
      JoinSplit(rest, sep);
      JoinCons(p, Split(rest, sep), sep);
    } else {
      SplitNone(s, sep);
    }
  }

  /** Splitting a join of separator-free pieces gives back the pieces. */
  lemma {:induction false} SplitJoin(parts: seq<string>, sep: char)
    requires |parts| >= 1
    requires forall i :: 0 <= i < |parts| ==> sep !in parts[i]
    ensures Split(Join(parts, sep), sep) == parts
  {
    if |parts| > 1 {
      var p, tail := parts[0], parts[1..];
      assert sep !in p;
      var rest := Join(tail, sep);
      var s := p + [sep] + rest;
      assert Join(parts, sep) == s;
      IndexOfJoined(p, sep, rest);
      assert s[..|p|] == p;
      assert s[|p| + 1..] == rest;
      assert Split(s, sep) == [p] + Split(rest, sep);
      SplitJoin(tail, sep);
      assert parts == [p] + tail;
    }
  }

  /** The last piece of a split, `s.split(sep).pop()`. */
  function LastPiece(s: string, sep: char): string
  {
    var parts := Split(s, sep);
    parts[|parts| - 1]
  }

  /** The last piece is a separator-free suffix of the string. */
  lemma LastPieceAt(s: string, sep: char)
    requires 0 <= IndexOf(s, sep)
    ensures LastPiece(s, sep) == LastPiece(s[IndexOf(s, sep) + 1..], sep)
  {
    var k := IndexOf(s, sep);
    SplitAt(s, sep);
    LastOfCons(s[..k], Split(s[k + 1..], sep));
  }

  lemma SuffixOfSuffix(s: string, j: nat, n: nat)
    requires j <= |s| && n <= |s| - j
    ensures s[|s| - n..] == s[j..][|s| - j - n..]
  {
  }

  lemma {:induction false} LastPieceSuffix(s: string, sep: char)
    ensures sep !in LastPiece(s, sep)
    ensures |LastPiece(s, sep)| <= |s| && s[|s| - |LastPiece(s, sep)|..] == LastPiece(s, sep)
    decreases |s|
  {
    var k := IndexOf(s, sep);
    if k >= 0 {
      LastPieceAt(s, sep);
      LastPieceSuffix(s[k + 1..], sep);
      SuffixOfSuffix(s, k + 1, |LastPiece(s, sep)|);
    } else {
      SplitNone(s, sep);
      IndexOfFirst(s, sep);
    }
  }

  /**
   * The last piece is everything after the last separator: it is the whole
   * string, or the character just before it is the separator.
   */
  lemma {:induction false} LastPieceAfterSeparator(s: string, sep: char)
    ensures var p := LastPiece(s, sep);
            |p| == |s| || (|p| < |s| && s[|s| - |p| - 1] == sep)
    decreases |s|
  {
    var k := IndexOf(s, sep);
    LastPieceSuffix(s, sep);
    if k >= 0 {
      var rest := s[k + 1..];
      LastPieceAt(s, sep);
      LastPieceAfterSeparator(rest, sep);
      LastPieceSuffix(rest, sep);
      var p := LastPiece(s, sep);
      if |p| == |rest| {
        assert s[|s| - |p| - 1] == s[k];
      } else {
        assert s[|s| - |p| - 1] == rest[|rest| - |p| - 1];
      }
    } else {
      SplitNone(s, sep);
    }
  }

  /** `s.substring(s.length - n)`: the last `n` characters, or all of `s` when it is shorter. */
  function LastChars(s: string, n: nat): (r: string)
    ensures |r| == if |s| < n then |s| else n
    ensures r == s[|s| - |r|..]
  {
    if |s| < n then s else s[|s| - n..]
  }

  function Digit(d: nat): char
    requires d < 10
  {
    ('0' as int + d) as char
  }

  predicate IsDigit(c: char) {
    '0' <= c <= '9'
  }

  /** A number formatted in a template literal: its decimal digits, without leading zeros. */
  function NatToString(n: nat): (r: string)
    ensures r != []
    ensures forall i :: 0 <= i < |r| ==> IsDigit(r[i])
  {
    if n < 10 then [Digit(n)] else NatToString(n / 10) + [Digit(n % 10)]
  }

  /** The value of a string of decimal digits. */
  function DigitsValue(s: string): nat
    requires forall i :: 0 <= i < |s| ==> IsDigit(s[i])
  {
    if s == [] then 0
    else
      assert IsDigit(s[|s| - 1]);
      10 * DigitsValue(s[..|s| - 1]) + (s[|s| - 1] as int - '0' as int)
  }

  /** Reading back the digits of a formatted number gives the number. */
  lemma {:induction false} NatToStringValue(n: nat)
    ensures DigitsValue(NatToString(n)) == n
  {
    if n >= 10 {
      NatToStringValue(n / 10);
      var s := NatToString(n);
      assert s[..|s| - 1] == NatToString(n / 10);
    }
  }

  /** Distinct numbers are formatted as distinct strings. */
  lemma NatToStringInjective(m: nat, n: nat)
    requires NatToString(m) == NatToString(n)
    ensures m == n
  {
    NatToStringValue(m);
    NatToStringValue(n);
  }
}
