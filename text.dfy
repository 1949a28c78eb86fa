/**
 * Character classes and string helpers with the meaning Python 2's `re` and
 * `str` give them in lint.py: `\w`, `\b`, `startswith`, `split`, and the
 * decimal rendering of integers done by `%s` and `%r`.
 */
module Text {

  /** `\w` of Python 2's `re` without the LOCALE or UNICODE flag. */
  predicate IsWordChar(c: char) {
    ('a' <= c <= 'z') || ('A' <= c <= 'Z') || ('0' <= c <= '9') || c == '_'
  }

  /** Position i of s holds a word character (positions outside s do not). */
  predicate IsWordAt(s: string, i: int) {
    0 <= i < |s| && IsWordChar(s[i])
  }

  /** `\b` at position i of s: exactly one of the two neighbouring characters is a word character. */
  predicate WordBoundary(s: string, i: int) {
    IsWordAt(s, i - 1) != IsWordAt(s, i)
  }

  predicate StartsWith(s: string, prefix: string) {
    |prefix| <= |s| && s[..|prefix|] == prefix
  }

  /**
   * A name pattern that is interpolated into a regular expression: only word
   * characters and '.', so that the regular expression has no quantifiers,
   * groups or anchors and matches exactly |p| characters.
   */
  predicate IsSimplePattern(p: string) {
    forall i :: 0 <= i < |p| ==> IsWordChar(p[i]) || p[i] == '.'
  }

  type Pattern = p: string | IsSimplePattern(p)

  // ---------------------------------------------------------------------------
  // str.split(sep) and its inverse sep.join(parts)

  function Split(s: string, sep: char): (parts: seq<string>)
    ensures |parts| >= 1
    decreases |s|
  {
    if |s| == 0 then [""]
    else
      var rest := Split(s[1..], sep);
      if s[0] == sep then [""] + rest
      else [[s[0]] + rest[0]] + rest[1..]
  }

  function Join(parts: seq<string>, sep: char): string
    requires |parts| >= 1
  {
    if |parts| == 1 then parts[0] else parts[0] + [sep] + Join(parts[1..], sep)
  }

  /** Joining the pieces of a split with the separator gives back the string. */
  lemma {:induction false} JoinSplit(s: string, sep: char)
    ensures Join(Split(s, sep), sep) == s
    decreases |s|
  {
    if |s| > 0 {
      var rest := Split(s[1..], sep);
      JoinSplit(s[1..], sep);
      if s[0] == sep {
        assert Split(s, sep)[1..] == rest;
      } else if |rest| == 1 {
        assert Join(Split(s, sep), sep) == [s[0]] + rest[0];
      } else {
        var parts := Split(s, sep);
        assert parts[1..] == rest[1..];
        assert Join(rest, sep) == rest[0] + [sep] + Join(rest[1..], sep);
        assert Join(parts, sep) == [s[0]] + rest[0] + [sep] + Join(rest[1..], sep);
      }
    }
  }

  /** No piece of a split contains the separator. */
  lemma {:induction false} SplitPiecesHaveNoSeparator(s: string, sep: char)
    ensures forall k :: 0 <= k < |Split(s, sep)| ==> sep !in Split(s, sep)[k]
    decreases |s|
  {
    if |s| > 0 {
      SplitPiecesHaveNoSeparator(s[1..], sep);
      var rest := Split(s[1..], sep);
      var parts := Split(s, sep);
      if s[0] == sep {
        assert forall k :: 1 <= k < |parts| ==> parts[k] == rest[k - 1];
      } else {
        assert forall k :: 1 <= k < |parts| ==> parts[k] == rest[k];
        assert parts[0] == [s[0]] + rest[0];
      }
    }
  }

  /** A split yields more than one piece exactly when the separator occurs. */
  lemma {:induction false} SplitHasSeveralPieces(s: string, sep: char)
    ensures |Split(s, sep)| > 1 <==> sep in s
    decreases |s|
  {
    if |s| > 0 {
      SplitHasSeveralPieces(s[1..], sep);
      assert sep in s <==> s[0] == sep || sep in s[1..] by {
        if sep in s {
          var k :| 0 <= k < |s| && s[k] == sep;
          if k > 0 { assert s[1..][k - 1] == sep; }
        }
        if sep in s[1..] {
          var k :| 0 <= k < |s[1..]| && s[1..][k] == sep;
          assert s[k + 1] == sep;
        }
      }
    }
  }

  /**
   * `s.split(sep)[1]` is the text between the first separator and the next
   * one (or the end): s is a separator-free head, the separator, that piece,
   * and a rest that is empty or starts with the separator.
   */
  lemma SecondPieceOfSplit(s: string, sep: char)
    requires sep in s
    ensures |Split(s, sep)| > 1
    ensures var x := Split(s, sep)[1];
      sep !in x &&
      exists head, rest {:trigger head + [sep] + x + rest} :: s == head + [sep] + x + rest && sep !in head && (rest == [] || rest[0] == sep)
  {
    SplitHasSeveralPieces(s, sep);
    SplitPiecesHaveNoSeparator(s, sep);
    JoinSplit(s, sep);
    var parts := Split(s, sep);
    var head, x := parts[0], parts[1];
    assert sep !in head && sep !in x;
    var tail := parts[1..];
    assert Join(parts, sep) == head + [sep] + Join(tail, sep);
    var rest: string := if |tail| == 1 then [] else [sep] + Join(tail[1..], sep);
    assert Join(tail, sep) == x + rest;
    assert s == head + [sep] + x + rest;
    assert rest == [] || rest[0] == sep;
  }

  // ---------------------------------------------------------------------------
  // Decimal rendering of integers (`str(i)` in Python) and its inverse

  function DigitChar(d: nat): char
    requires d < 10
  {
    "0123456789"[d]
  }

  predicate IsDigit(c: char) {
    '0' <= c <= '9'
  }

  function DigitValue(c: char): nat
    requires IsDigit(c)
  {
    (c as int - '0' as int) as nat
  }

  function NatToString(n: nat): (s: string)
    ensures |s| >= 1
    ensures forall k :: 0 <= k < |s| ==> IsDigit(s[k])
    ensures n == 0 ==> s == "0"
    ensures n > 0 ==> s[0] != '0'
    decreases n
  {
    if n < 10 then [DigitChar(n)] else NatToString(n / 10) + [DigitChar(n % 10)]
  }

  function ParseNat(s: string): nat
    requires forall k :: 0 <= k < |s| ==> IsDigit(s[k])
    decreases |s|
  {
    if s == [] then 0 else ParseNat(s[..|s| - 1]) * 10 + DigitValue(s[|s| - 1])
  }

  /** Reading back the rendering of a natural number gives that number. */
  lemma {:induction false} ParseNatToString(n: nat)
    ensures ParseNat(NatToString(n)) == n
    decreases n
  {
    var s := NatToString(n);
    if n < 10 {
      assert s[..0] == [];
    } else {
      ParseNatToString(n / 10);
      assert s[..|s| - 1] == NatToString(n / 10);
    }
  }

  /** `str(i)` of a Python int. */
  function IntToString(i: int): (s: string)
    ensures |s| >= 1
    ensures s[0] == '-' <==> i < 0
    ensures i == 0 ==> s == "0"
    ensures i > 0 ==> s[0] != '0'
    ensures i < 0 ==> |s| >= 2 && s[1] != '0'
  {
    if i < 0 then "-" + NatToString(-i) else NatToString(i)
  }

  function ParseInt(s: string): int
    requires |s| >= 1
    requires forall k :: (if s[0] == '-' then 1 else 0) <= k < |s| ==> IsDigit(s[k])
  {
    if s[0] == '-' then -(ParseNat(s[1..]) as int) else ParseNat(s)
  }

  /** The rendering of an integer is a decimal numeral that reads back as the integer. */
  lemma IntToStringRoundTrip(i: int)
    ensures var s := IntToString(i);
      (forall k :: (if s[0] == '-' then 1 else 0) <= k < |s| ==> IsDigit(s[k])) &&
      ParseInt(s) == i
  {
    var s := IntToString(i);
    if i < 0 {
      var d := NatToString(-i);
      assert s == "-" + d;
      assert s[1..] == d;
      forall k | 1 <= k < |s| ensures IsDigit(s[k]) {
        assert s[k] == d[k - 1];
      }
      ParseNatToString(-i);
    } else {
      assert IsDigit(s[0]);
      ParseNatToString(i);
    }
  }

  /** `", ".join(str(x) for x in xs)` */
  function JoinInts(xs: seq<int>): string {
    if xs == [] then ""
    else if |xs| == 1 then IntToString(xs[0])
    else IntToString(xs[0]) + ", " + JoinInts(xs[1..])
  }

  /** `repr(xs)` of a Python 2 list of ints, as `%r` renders it. */
  function ReprIntList(xs: seq<int>): string {
    "[" + JoinInts(xs) + "]"
  }

  /** Texts that agree after a common prefix are equal. */
  lemma PrefixCancel(prefix: string, a: string, b: string)
    requires prefix + a == prefix + b
    ensures a == b
  {
    assert a == (prefix + a)[|prefix|..];
    assert b == (prefix + b)[|prefix|..];
  }
}
