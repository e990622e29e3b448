/** The handful of JavaScript string operations the pipeline relies on, stated over
    `seq<char>`: `split` on one character, `join`, `includes`, `startsWith`/`endsWith`,
    `replace` with a string pattern (first occurrence only), `trim`, decimal
    formatting of integers and `parseInt(_, 10)`. */
module Strings {
  import opened Wrappers

  /** ECMAScript LineTerminator code points: what `.` in a regular expression refuses. */
  predicate IsLineTerminator(c: char) {
    c == '\n' || c == '\r' || c == '\U{2028}' || c == '\U{2029}'
  }

  /** ECMAScript WhiteSpace and LineTerminator code points: the class `\s` of a regular
      expression, and exactly what `String.prototype.trim` removes at both ends. */
  predicate IsWhitespace(c: char) {
    || c == '\t' || c == '\U{000B}' || c == '\U{000C}' || c == ' ' || c == '\U{00A0}'
    || c == '\U{1680}' || ('\U{2000}' <= c <= '\U{200A}') || c == '\U{202F}' || c == '\U{205F}'
    || c == '\U{3000}' || c == '\U{FEFF}' || IsLineTerminator(c)
  }

  predicate IsDigit(c: char) { '0' <= c <= '9' }

  predicate AllDigits(s: string) { forall i :: 0 <= i < |s| ==> IsDigit(s[i]) }

  predicate StartsWith(s: string, prefix: string) {
    |prefix| <= |s| && s[..|prefix|] == prefix
  }

  predicate EndsWith(s: string, suffix: string) {
    |suffix| <= |s| && s[|s| - |suffix|..] == suffix
  }

  /** `s.includes(sub)`: `sub` occurs at some position of `s`. */
  predicate Contains(s: string, sub: string)
    decreases |s|
  {
    StartsWith(s, sub) || (s != [] && Contains(s[1..], sub))
  }

  /** An occurrence at the start of `s` is an occurrence in anything that ends with `s`. */
  lemma {:induction false} ContainsAfterPrefix(prefix: string, s: string, sub: string)
    requires StartsWith(s, sub)
    ensures Contains(prefix + s, sub)
    decreases |prefix|
  {
    if prefix != [] {
      ContainsAfterPrefix(prefix[1..], s, sub);
      assert (prefix + s)[1..] == prefix[1..] + s;
    }
  }

  /** `s.split(sep)` for a one-character separator: the maximal runs between the
      separators, in order; never empty. */
  function Split(s: string, sep: char): (parts: seq<string>)
    ensures |parts| >= 1
    decreases |s|
  {
    if s == [] then [[]]
    else
      var rest := Split(s[1..], sep);
      if s[0] == sep then [[]] + rest else [[s[0]] + rest[0]] + rest[1..]
  }

  /** No part holds the separator. */
  lemma {:induction false} SplitPartsFree(s: string, sep: char)
    ensures forall i :: 0 <= i < |Split(s, sep)| ==> sep !in Split(s, sep)[i]
    decreases |s|
  {
    if s != [] {
      var rest := Split(s[1..], sep);
      SplitPartsFree(s[1..], sep);
      var parts := Split(s, sep);
      if s[0] == sep {
        assert parts == [[]] + rest;
        assert forall i :: 1 <= i < |parts| ==> parts[i] == rest[i - 1];
      } else {
        assert parts == [[s[0]] + rest[0]] + rest[1..];
        assert forall i :: 1 <= i < |parts| ==> parts[i] == rest[i];
        assert sep !in [s[0]] + rest[0];
      }
    }
  }

  /** The first part is a prefix of the input, followed by the separator unless it is the
      whole input. */
  lemma {:induction false} SplitFirst(s: string, sep: char)
    ensures var p := Split(s, sep)[0];
      StartsWith(s, p) && (|p| == |s| || s[|p|] == sep)
    decreases |s|
  {
    if s != [] && s[0] != sep {
      var t := s[1..];
      var rest := Split(t, sep);
      SplitFirst(t, sep);
      var p := [s[0]] + rest[0];
      assert Split(s, sep)[0] == p;
      assert s == [s[0]] + t;
      assert s[..|p|] == [s[0]] + t[..|rest[0]|];
      if |p| < |s| {
        assert s[|p|] == t[|rest[0]|];
      }
    }
  }

  /** The input splits into one part exactly when the separator does not occur, and that
      part is the whole input. */
  lemma {:induction false} SplitSingle(s: string, sep: char)
    ensures (|Split(s, sep)| == 1) == (sep !in s)
    ensures sep !in s ==> Split(s, sep) == [s]
    decreases |s|
  {
    if s != [] {
      var t := s[1..];
      SplitSingle(t, sep);
      assert s == [s[0]] + t;
      if s[0] != sep && sep !in t {
        assert Split(s, sep) == [[s[0]] + t];
      }
    }
  }

  /** `parts.join(sep)`. */
  function Join(parts: seq<string>, sep: string): string
    decreases |parts|
  {
    if parts == [] then []
    else if |parts| == 1 then parts[0]
    else parts[0] + sep + Join(parts[1..], sep)
  }

  /** Splitting and joining again with the same separator gives back the input. */
  lemma {:induction false} SplitJoin(s: string, sep: char)
    ensures Join(Split(s, sep), [sep]) == s
    decreases |s|
  {
    if s != [] {
      var rest := Split(s[1..], sep);
      SplitJoin(s[1..], sep);
      if s[0] == sep {
        assert Split(s, sep) == [[]] + rest;
        assert Join([[]] + rest, [sep]) == [] + [sep] + Join(rest, [sep]);
        assert [sep] + s[1..] == s;
      } else if |rest| == 1 {
        assert Split(s, sep) == [[s[0]] + rest[0]];
        assert Join(rest, [sep]) == rest[0];
        assert [s[0]] + s[1..] == s;
      } else {
        var parts := [[s[0]] + rest[0]] + rest[1..];
        assert Split(s, sep) == parts;
        assert parts[1..] == rest[1..];
        assert Join(rest, [sep]) == rest[0] + [sep] + Join(rest[1..], [sep]);
        assert Join(parts, [sep]) == [s[0]] + rest[0] + [sep] + Join(rest[1..], [sep]);
        assert [s[0]] + s[1..] == s;
      }
    }
  }

  /** The last part of a split is a suffix of the input, and it is either the whole input
      or follows a separator. */
  lemma {:induction false} SplitLast(s: string, sep: char)
    ensures var parts := Split(s, sep); var r := parts[|parts| - 1];
      EndsWith(s, r) && (|r| == |s| || s[|s| - |r| - 1] == sep)
    decreases |s|, 1
  {
    if s != [] {
      var t := s[1..];
      assert s == [s[0]] + t;
      var rest := Split(t, sep);
      var parts := Split(s, sep);
      if s[0] == sep || |rest| > 1 {
        SplitLastOfLonger(s, sep);
      } else {
        SplitSingle(t, sep);
        assert parts == [s];
      }
    }
  }

  lemma {:induction false} SplitLastOfLonger(s: string, sep: char)
    requires s != [] && (s[0] == sep || |Split(s[1..], sep)| > 1)
    ensures var parts := Split(s, sep); var r := parts[|parts| - 1];
      EndsWith(s, r) && |r| < |s| && s[|s| - |r| - 1] == sep
    decreases |s|, 0
  {
    var t := s[1..];
    var rest := Split(t, sep);
    var parts := Split(s, sep);
    var r := rest[|rest| - 1];
    if s[0] == sep {
      assert parts == [[]] + rest;
    } else {
      assert parts == [[s[0]] + rest[0]] + rest[1..];
      SplitLastShorter(t, sep);
    }
    assert parts[|parts| - 1] == r;
    SplitLast(t, sep);
    EndsWithTail(s, r);
  }

  /** When the separator occurs, the last part is shorter than the input. */
  lemma SplitLastShorter(s: string, sep: char)
    requires |Split(s, sep)| > 1
    ensures |Split(s, sep)[|Split(s, sep)| - 1]| < |s|
    decreases |s|, 2
  {
    SplitSingle(s, sep);
    SplitPartsFree(s, sep);
    SplitLast(s, sep);
  }

  /** A suffix of the tail of `s` is a suffix of `s`, preceded by the same character. */
  lemma EndsWithTail(s: string, r: string)
    requires s != [] && EndsWith(s[1..], r)
    ensures EndsWith(s, r)
    ensures |r| < |s| - 1 ==> s[|s| - |r| - 1] == s[1..][|s| - 1 - |r| - 1]
  {
    assert s[|s| - |r|..] == s[1..][|s| - 1 - |r|..];
  }

  /** A separator-free part followed by the separator splits off as the first part. */
  lemma {:induction false} SplitAfterPart(a: string, sep: char, b: string)
    requires sep !in a
    ensures Split(a + [sep] + b, sep) == [a] + Split(b, sep)
    decreases |a|
  {
    if a == [] {
      assert [] + [sep] + b == [sep] + b;
      assert ([sep] + b)[1..] == b;
    } else {
      SplitAfterPart(a[1..], sep, b);
      var s := a + [sep] + b;
      assert s[0] == a[0] && s[1..] == a[1..] + [sep] + b;
      assert [a[0]] + a[1..] == a;
    }
  }

  /** `s.split(sep).pop()`: the text after the last separator, or all of `s`. */
  function LastSegment(s: string, sep: char): (r: string)
    ensures sep !in r && EndsWith(s, r)
    ensures r == s || s[|s| - |r| - 1] == sep
  {
    SplitLast(s, sep);
    SplitPartsFree(s, sep);
    var parts := Split(s, sep);
    parts[|parts| - 1]
  }

  /** Joining two separator-free parts with the separator is injective. */
  lemma JoinedPartsUnique(a: string, b: string, c: string, d: string, sep: char)
    requires sep !in a && sep !in b && sep !in c && sep !in d
    requires a + [sep] + b == c + [sep] + d
    ensures a == c && b == d
  {
    var s := a + [sep] + b;
    assert s[|a|] == sep && s[|c|] == sep;
    assert forall k :: 0 <= k < |a| ==> s[k] == a[k];
    assert forall k :: 0 <= k < |c| ==> s[k] == c[k];
    assert |a| == |c|;
    assert a == s[..|a|] && c == s[..|c|];
    assert b == s[|a| + 1..] && d == s[|c| + 1..];
  }

  /** What follows the last separator is the last segment. */
  lemma LastSegmentAfterSeparator(prefix: string, sep: char, last: string)
    requires sep !in last
    ensures LastSegment(prefix + [sep] + last, sep) == last
  {
    var s := prefix + [sep] + last;
    var r := LastSegment(s, sep);
    assert forall k :: |s| - |r| <= k < |s| ==> s[k] == r[k - (|s| - |r|)];
    assert forall k :: |prefix| < k < |s| ==> s[k] == last[k - |prefix| - 1];
    assert s[|prefix|] == sep;
    assert r == s[|s| - |last|..] == last;
  }

  /** `s.split(sep)[0]`: the text before the first separator, or all of `s`. */
  function FirstSegment(s: string, sep: char): (r: string)
    ensures sep !in r && StartsWith(s, r)
    ensures r == s || s[|r|] == sep
  {
    SplitPartsFree(s, sep);
    SplitFirst(s, sep);
    Split(s, sep)[0]
  }

  /** What precedes the first separator is the first segment. */
  lemma FirstSegmentBeforeSeparator(first: string, sep: char, rest: string)
    requires sep !in first
    ensures FirstSegment(first + [sep] + rest, sep) == first
  {
    var s := first + [sep] + rest;
    var r := FirstSegment(s, sep);
    assert forall k :: 0 <= k < |first| ==> s[k] == first[k];
    assert s[|first|] == sep;
    assert forall k :: 0 <= k < |r| ==> s[k] == r[k];
    assert |r| <= |first|;
    assert r == s[..|r|];
    assert |r| == |first|;
  }

  /** `s.replace(pattern, replacement)` with a string pattern: only the first occurrence
      of `pattern` is replaced; `s` is returned unchanged when there is none. */
  function ReplaceFirst(s: string, pattern: string, replacement: string): (r: string)
    ensures !Contains(s, pattern) ==> r == s
    decreases |s|
  {
    if StartsWith(s, pattern) then replacement + s[|pattern|..]
    else if s == [] then s
    else [s[0]] + ReplaceFirst(s[1..], pattern, replacement)
  }

  function DigitChar(d: nat): (c: char)
    requires d < 10
    ensures IsDigit(c)
  {
    (48 + d) as char
  }

  function DigitValue(c: char): (d: nat)
    requires IsDigit(c)
    ensures d < 10 && DigitChar(d) == c
  {
    (c as int) - 48
  }

  /** The decimal text of a natural number, as JavaScript formats it in a template literal. */
  function NatToString(n: nat): (s: string)
    ensures |s| >= 1 && AllDigits(s)
    decreases n
  {
    if n < 10 then [DigitChar(n)] else NatToString(n / 10) + [DigitChar(n % 10)]
  }

  /** The decimal text of an integer: a '-' sign before the digits of a negative one. */
  function IntToString(i: int): (s: string)
    ensures |s| >= 1
    ensures (i < 0) == (s[0] == '-')
  {
    if i < 0 then "-" + NatToString(-i) else NatToString(i)
  }

  /** The value of a string of decimal digits. */
  function DecimalValue(s: string): nat
    requires AllDigits(s)
    decreases |s|
  {
    if s == [] then 0 else DecimalValue(s[..|s| - 1]) * 10 + DigitValue(s[|s| - 1])
  }

  /** Formatting a natural number and reading it back gives the number. */
  lemma {:induction false} DecimalRoundTrip(n: nat)
    ensures DecimalValue(NatToString(n)) == n
    decreases n
  {
    if n >= 10 {
      DecimalRoundTrip(n / 10);
      var s := NatToString(n);
      assert s[..|s| - 1] == NatToString(n / 10);
    }
  }

  /** The longest prefix of `s` made of decimal digits. */
  function LeadingDigits(s: string): (r: string)
    ensures AllDigits(r) && StartsWith(s, r)
    ensures |r| == |s| || !IsDigit(s[|r|])
    decreases |s|
  {
    if s != [] && IsDigit(s[0]) then [s[0]] + LeadingDigits(s[1..]) else []
  }

  /** `parseInt(s, 10)`: leading whitespace is skipped, one sign is read, then the
      leading run of decimal digits (whatever follows is ignored); `None` stands for `NaN`,
      the result when no digit follows. */
  function ParseInt(s: string): Option<int> {
    var t := TrimStart(s);
    var unsigned := if t != [] && (t[0] == '-' || t[0] == '+') then t[1..] else t;
    var digits := LeadingDigits(unsigned);
    var value: int := DecimalValue(digits);
    if digits == [] then None
    else if t[0] == '-' then Some(-value)
    else Some(value)
  }

  /** `parseInt` reads back what a template literal wrote for an integer, whatever
      non-digit text follows. */
  lemma ParseIntOfFormatted(i: int, tail: string)
    requires tail == [] || !IsDigit(tail[0])
    ensures ParseInt(IntToString(i) + tail) == Some(i)
  {
    var n: nat := if i < 0 then -i else i;
    DecimalRoundTrip(n);
    if i < 0 {
      ParseIntOfNegative(NatToString(n), tail);
      assert IntToString(i) + tail == "-" + NatToString(n) + tail;
    } else {
      ParseIntOfUnsigned(NatToString(n), tail);
    }
  }

  lemma ParseIntOfUnsigned(digits: string, tail: string)
    requires digits != [] && AllDigits(digits)
    requires tail == [] || !IsDigit(tail[0])
    ensures ParseInt(digits + tail) == Some(DecimalValue(digits))
  {
    LeadingDigitsOfDigits(digits, tail);
    assert (digits + tail)[0] == digits[0];
    NoSpaceToSkip(digits + tail);
  }

  lemma ParseIntOfNegative(digits: string, tail: string)
    requires digits != [] && AllDigits(digits)
    requires tail == [] || !IsDigit(tail[0])
    ensures ParseInt("-" + digits + tail) == Some(-(DecimalValue(digits) as int))
  {
    var s := "-" + digits + tail;
    LeadingDigitsOfDigits(digits, tail);
    assert s[0] == '-';
    assert s[1..] == digits + tail;
    NoSpaceToSkip(s);
  }

  /** A string that starts with a digit or a sign has no leading whitespace to skip. */
  lemma NoSpaceToSkip(s: string)
    requires s != [] && (s[0] == '-' || IsDigit(s[0]))
    ensures TrimStart(s) == s
  {
    assert SkipWhitespace(s, 0) == 0;
  }

  /** On a non-empty run of digits `parseInt` is the decimal value. */
  lemma ParseIntOfDigits(d: string)
    requires d != [] && AllDigits(d)
    ensures ParseInt(d) == Some(DecimalValue(d))
  {
    LeadingDigitsOfDigits(d, []);
    assert d + [] == d;
    NoSpaceToSkip(d);
  }

  lemma {:induction false} LeadingDigitsOfDigits(d: string, tail: string)
    requires AllDigits(d)
    requires tail == [] || !IsDigit(tail[0])
    ensures LeadingDigits(d + tail) == d
    decreases |d|
  {
    if d != [] {
      LeadingDigitsOfDigits(d[1..], tail);
      assert (d + tail)[1..] == d[1..] + tail;
    } else {
      assert d + tail == tail;
    }
  }

  /** The index of the first character at or after `i` that is not whitespace (`|s|` when
      there is none). */
  function SkipWhitespace(s: string, i: nat): (n: nat)
    requires i <= |s|
    ensures i <= n <= |s|
    ensures forall k :: i <= k < n ==> IsWhitespace(s[k])
    ensures n == |s| || !IsWhitespace(s[n])
    decreases |s| - i
  {
    if i < |s| && IsWhitespace(s[i]) then SkipWhitespace(s, i + 1) else i
  }

  /** The index just past the last character before `j` that is not whitespace (0 when
      there is none). */
  function SkipWhitespaceBack(s: string, j: nat): (n: nat)
    requires j <= |s|
    ensures n <= j
    ensures forall k :: n <= k < j ==> IsWhitespace(s[k])
    ensures n == 0 || !IsWhitespace(s[n - 1])
    decreases j
  {
    if j > 0 && IsWhitespace(s[j - 1]) then SkipWhitespaceBack(s, j - 1) else j
  }

  /** Drops the leading whitespace and line terminators. */
  function TrimStart(s: string): string {
    s[SkipWhitespace(s, 0)..]
  }

  /** `s.trim()`: the leading and the trailing whitespace and line terminators dropped. */
  function Trim(s: string): string {
    var i := SkipWhitespace(s, 0);
    var j := SkipWhitespaceBack(s, |s|);
    if j <= i then [] else s[i..j]
  }

  /** What `trim` returns: a contiguous piece of the input, everything cut off on either
      side is whitespace, and neither end of the result is whitespace. */
  lemma TrimIsTrimmedSlice(s: string)
    ensures exists i, j :: (0 <= i <= j <= |s| && Trim(s) == s[i..j]
      && (forall k :: 0 <= k < i ==> IsWhitespace(s[k]))
      && (forall k :: j <= k < |s| ==> IsWhitespace(s[k])))
    ensures Trim(s) == [] || (!IsWhitespace(Trim(s)[0]) && !IsWhitespace(Trim(s)[|Trim(s)| - 1]))
  {
    var i := SkipWhitespace(s, 0);
    var j := SkipWhitespaceBack(s, |s|);
    if j <= i {
      assert Trim(s) == s[i..i];
    } else {
      assert Trim(s)[0] == s[i];
      assert Trim(s)[|Trim(s)| - 1] == s[j - 1];
    }
  }

  /** Trimming twice is trimming once. */
  lemma TrimIdempotent(s: string)
    ensures Trim(Trim(s)) == Trim(s)
  {
    var r := Trim(s);
    TrimIsTrimmedSlice(s);
    if r != [] {
      assert SkipWhitespace(r, 0) == 0;
      assert SkipWhitespaceBack(r, |r|) == |r|;
      assert r[0..|r|] == r;
    }
  }
}
