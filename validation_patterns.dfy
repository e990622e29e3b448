/** The three regular expressions message schemas use to validate identifiers and
    locations. Each is transcribed term by term into a small anchored pattern language
    with its own matcher (`Matches`), and each is also written by hand as a predicate over
    character positions; the lemmas prove that the two agree on every string. The
    patterns carry no flags, so `.` refuses line terminators and `^`/`$` anchor the whole
    string. */
module ValidationPatterns {
  import opened Strings

  /** A one-character class of the pattern language. */
  datatype CharClass =
    | Literal(c: char)                          // a plain or escaped character, e.g. `\/`
    | InRanges(ranges: seq<(char, char)>)       // `[0-9a-f]`
    | NoneOf(chars: seq<char>, orSpace: bool)   // `[^...]`, `orSpace` when the set holds `\s`
    | AnyButLineTerminator                      // `.`

  datatype Quantifier = Exactly(n: nat) | Star

  datatype Term = Term(cls: CharClass, q: Quantifier)

  predicate ClassMatches(cls: CharClass, c: char) {
    match cls
    case Literal(x) => c == x
    case InRanges(rs) => exists k :: 0 <= k < |rs| && rs[k].0 <= c <= rs[k].1
    case NoneOf(cs, sp) => c !in cs && !(sp && IsWhitespace(c))
    case AnyButLineTerminator => !IsLineTerminator(c)
  }

  /** Does the whole of `s` match the terms `p` (anchored at both ends)? `Star` is greedy
      or lazy alike here: the matcher tries every split. */
  predicate Matches(p: seq<Term>, s: string)
    decreases |p|, |s|
  {
    if p == [] then s == []
    else
      var t := p[0];
      match t.q
      case Exactly(n) =>
        if n == 0 then Matches(p[1..], s)
        else s != [] && ClassMatches(t.cls, s[0]) && Matches([Term(t.cls, Exactly(n - 1))] + p[1..], s[1..])
      case Star =>
        Matches(p[1..], s) || (s != [] && ClassMatches(t.cls, s[0]) && Matches(p, s[1..]))
  }

  function One(cls: CharClass): Term { Term(cls, Exactly(1)) }

  const LowerHex := InRanges([('0', '9'), ('a', 'f')])

  /** `^[0-9a-f]{8}-[0-9a-f]{4}-[0-9a-f]{4}-[0-9a-f]{4}-[0-9a-f]{12}$` */
  const UuidRegex: seq<Term> := [
    Term(LowerHex, Exactly(8)), One(Literal('-')),
    Term(LowerHex, Exactly(4)), One(Literal('-')),
    Term(LowerHex, Exactly(4)), One(Literal('-')),
    Term(LowerHex, Exactly(4)), One(Literal('-')),
    Term(LowerHex, Exactly(12))]

  /** `^https:\/\/[^\s/$.?#].[^\s]*$` */
  const UrlRegex: seq<Term> := [
    One(Literal('h')), One(Literal('t')), One(Literal('t')), One(Literal('p')), One(Literal('s')),
    One(Literal(':')), One(Literal('/')), One(Literal('/')),
    One(NoneOf("/$.?#", true)),
    One(AnyButLineTerminator),
    Term(NoneOf([], true), Star)]

  /** `^\/.*$` */
  const PathRegex: seq<Term> := [One(Literal('/')), Term(AnyButLineTerminator, Star)]

  predicate IsLowerHexDigit(c: char) { ('0' <= c <= '9') || ('a' <= c <= 'f') }

  /** 36 characters: '-' at 8, 13, 18 and 23 and a lower-case hex digit everywhere else
      (the lower-case subset of the UUID string form of RFC 4122, section 3). */
  predicate UuidPattern(s: string) {
    |s| == 36 &&
    forall i :: 0 <= i < 36 ==>
      if i == 8 || i == 13 || i == 18 || i == 23 then s[i] == '-' else IsLowerHexDigit(s[i])
  }

  /** A '/' first, then anything free of line terminators. */
  predicate PathPattern(s: string) {
    |s| >= 1 && s[0] == '/' && forall i :: 1 <= i < |s| ==> !IsLineTerminator(s[i])
  }

  /** `https://`, then a character that is not whitespace nor one of `/$.?#`, then any
      character but a line terminator, then only non-whitespace. */
  predicate UrlPattern(s: string) {
    && |s| >= 10
    && s[..8] == "https://"
    && !IsWhitespace(s[8]) && s[8] !in "/$.?#"
    && !IsLineTerminator(s[9])
    && forall i :: 10 <= i < |s| ==> !IsWhitespace(s[i])
  }

  // ---- general facts about the matcher ----

  /** A run of exactly `n` characters of one class, then the rest of the pattern. */
  lemma {:induction false} MatchesExactly(cls: CharClass, n: nat, rest: seq<Term>, s: string)
    ensures Matches([Term(cls, Exactly(n))] + rest, s) <==>
      (|s| >= n && (forall i :: 0 <= i < n ==> ClassMatches(cls, s[i])) && Matches(rest, s[n..]))
    decreases n
  {
    var p := [Term(cls, Exactly(n))] + rest;
    assert p[1..] == rest;
    if n > 0 && s != [] {
      MatchesExactly(cls, n - 1, rest, s[1..]);
      if |s| >= n { assert s[1..][n - 1..] == s[n..]; }
      if ClassMatches(cls, s[0]) && |s| >= n && Matches(rest, s[n..])
         && (forall i :: 0 <= i < n - 1 ==> ClassMatches(cls, s[1..][i])) {
        forall i | 0 <= i < n ensures ClassMatches(cls, s[i]) {
          if i > 0 { assert s[i] == s[1..][i - 1]; }
        }
      }
    }
  }

  /** A starred class as the last term matches exactly the strings made of that class. */
  lemma {:induction false} MatchesStarLast(cls: CharClass, s: string)
    ensures Matches([Term(cls, Star)], s) <==> forall i :: 0 <= i < |s| ==> ClassMatches(cls, s[i])
    decreases |s|
  {
    var p := [Term(cls, Star)];
    assert p[1..] == [];
    if s != [] {
      MatchesStarLast(cls, s[1..]);
      if forall i :: 0 <= i < |s| ==> ClassMatches(cls, s[i]) {
        assert forall i :: 0 <= i < |s[1..]| ==> ClassMatches(cls, s[1..][i]);
      }
      if ClassMatches(cls, s[0]) && forall i :: 0 <= i < |s[1..]| ==> ClassMatches(cls, s[1..][i]) {
        forall i | 0 <= i < |s| ensures ClassMatches(cls, s[i]) {
          if i > 0 { assert s[i] == s[1..][i - 1]; }
        }
      }
    }
  }

  /** Every term of `p` has a fixed repetition count. */
  predicate AllFixed(p: seq<Term>) {
    forall k :: 0 <= k < |p| ==> p[k].q.Exactly?
  }

  /** The classes a fixed-width pattern expects, one per character position. */
  function Expand(p: seq<Term>): (e: seq<CharClass>)
    requires AllFixed(p)
    decreases |p|
  {
    if p == [] then [] else seq(p[0].q.n, _ => p[0].cls) + Expand(p[1..])
  }

  /** A pattern of single-character terms expands to its classes. */
  lemma {:induction false} ExpandSingles(p: seq<Term>)
    requires forall k :: 0 <= k < |p| ==> p[k].q == Exactly(1)
    ensures AllFixed(p) && |Expand(p)| == |p|
    ensures forall i :: 0 <= i < |p| ==> Expand(p)[i] == p[i].cls
    decreases |p|
  {
    if p != [] {
      ExpandSingles(p[1..]);
    }
  }

  /** A fixed-width prefix matches position by position, and the rest of the pattern
      matches what follows it. */
  lemma {:induction false} MatchesFixedPrefix(p: seq<Term>, rest: seq<Term>, s: string)
    requires AllFixed(p)
    ensures Matches(p + rest, s) <==>
      (|s| >= |Expand(p)| && (forall i :: 0 <= i < |Expand(p)| ==> ClassMatches(Expand(p)[i], s[i]))
       && Matches(rest, s[|Expand(p)|..]))
    decreases |p|
  {
    if p == [] {
      assert p + rest == rest;
      assert s[0..] == s;
    } else {
      var n := p[0].q.n;
      var cls := p[0].cls;
      var e := Expand(p);
      var e' := Expand(p[1..]);
      assert p + rest == [Term(cls, Exactly(n))] + (p[1..] + rest);
      MatchesExactly(cls, n, p[1..] + rest, s);
      if |s| >= n {
        MatchesFixedPrefix(p[1..], rest, s[n..]);
        assert forall i :: 0 <= i < |e| ==> e[i] == if i < n then cls else e'[i - n];
        if |s| >= |e| {
          assert s[n..][|e'|..] == s[|e|..];
          assert forall i :: n <= i < |e| ==> s[i] == s[n..][i - n];
        }
      }
    }
  }

  // ---- the three patterns ----

  lemma HexClass(c: char)
    ensures ClassMatches(LowerHex, c) <==> IsLowerHexDigit(c)
  {
    if IsLowerHexDigit(c) {
      if '0' <= c <= '9' { assert LowerHex.ranges[0].0 <= c <= LowerHex.ranges[0].1; }
      else { assert LowerHex.ranges[1].0 <= c <= LowerHex.ranges[1].1; }
    }
  }

  /** The position classes of the UUID pattern. */
  lemma UuidExpansion()
    ensures AllFixed(UuidRegex)
    ensures |Expand(UuidRegex)| == 36
    ensures forall i :: 0 <= i < 36 ==>
      Expand(UuidRegex)[i] == if i == 8 || i == 13 || i == 18 || i == 23 then Literal('-') else LowerHex
  {
    var p := UuidRegex;
    UuidExpansionFromFirstDash();
    assert p[0] == Term(LowerHex, Exactly(8));
    assert Expand(p) == seq(8, _ => LowerHex) + Expand(p[1..]);
  }

  /** The classes from the first '-' of the UUID pattern on. */
  lemma UuidExpansionFromFirstDash()
    ensures AllFixed(UuidRegex[1..]) && |Expand(UuidRegex[1..])| == 28
    ensures forall i :: 0 <= i < 28 ==>
      Expand(UuidRegex[1..])[i] == if i == 0 || i == 5 || i == 10 || i == 15 then Literal('-') else LowerHex
  {
    var p := UuidRegex;
    UuidExpansionFromThirdDash();
    var e4 := Expand(p[4..]);
    var e3 := Expand(p[3..]);
    assert p[3..][0] == Term(Literal('-'), Exactly(1));
    assert e3 == seq(1, _ => Literal('-')) + Expand(p[3..][1..]);
    assert p[3..][1..] == p[4..];
    assert |e3| == 23 && forall i :: 0 <= i < 23 ==> e3[i] == if i == 0 || i == 5 || i == 10 then Literal('-') else LowerHex;
    var e2 := Expand(p[2..]);
    assert p[2..][0] == Term(LowerHex, Exactly(4));
    assert e2 == seq(4, _ => LowerHex) + Expand(p[2..][1..]);
    assert p[2..][1..] == p[3..];
    assert |e2| == 27 && forall i :: 0 <= i < 27 ==> e2[i] == if i == 4 || i == 9 || i == 14 then Literal('-') else LowerHex;
    var e1 := Expand(p[1..]);
    assert p[1..][0] == Term(Literal('-'), Exactly(1));
    assert e1 == seq(1, _ => Literal('-')) + Expand(p[1..][1..]);
    assert p[1..][1..] == p[2..];
  }

  /** The classes from the third '-' of the UUID pattern on. */
  lemma UuidExpansionFromThirdDash()
    ensures AllFixed(UuidRegex[4..]) && |Expand(UuidRegex[4..])| == 22
    ensures forall i :: 0 <= i < 22 ==>
      Expand(UuidRegex[4..])[i] == if i == 4 || i == 9 then Literal('-') else LowerHex
  {
    var p := UuidRegex;
    UuidExpansionFromLastDash();
    var e5 := Expand(p[5..]);
    var e4 := Expand(p[4..]);
    assert p[4..][0] == Term(LowerHex, Exactly(4));
    assert e4 == seq(4, _ => LowerHex) + Expand(p[4..][1..]);
    assert p[4..][1..] == p[5..];
  }

  /** The classes from the fourth '-' of the UUID pattern on. */
  lemma UuidExpansionFromLastDash()
    ensures AllFixed(UuidRegex[5..]) && |Expand(UuidRegex[5..])| == 18
    ensures forall i :: 0 <= i < 18 ==>
      Expand(UuidRegex[5..])[i] == if i == 0 || i == 5 then Literal('-') else LowerHex
  {
    var p := UuidRegex;
    var e8 := Expand(p[8..]);
    assert p[8..][0] == Term(LowerHex, Exactly(12));
    assert e8 == seq(12, _ => LowerHex) + Expand(p[8..][1..]);
    assert p[8..][1..] == [];
    assert Expand(p[8..][1..]) == [];
    assert |e8| == 12 && forall i :: 0 <= i < 12 ==> e8[i] == LowerHex;
    var e7 := Expand(p[7..]);
    assert p[7..][0] == Term(Literal('-'), Exactly(1));
    assert e7 == seq(1, _ => Literal('-')) + Expand(p[7..][1..]);
    assert p[7..][1..] == p[8..];
    assert |e7| == 13 && forall i :: 0 <= i < 13 ==> e7[i] == if i == 0 then Literal('-') else LowerHex;
    var e6 := Expand(p[6..]);
    assert p[6..][0] == Term(LowerHex, Exactly(4));
    assert e6 == seq(4, _ => LowerHex) + Expand(p[6..][1..]);
    assert p[6..][1..] == p[7..];
    assert |e6| == 17 && forall i :: 0 <= i < 17 ==> e6[i] == if i == 4 then Literal('-') else LowerHex;
    var e5 := Expand(p[5..]);
    assert p[5..][0] == Term(Literal('-'), Exactly(1));
    assert e5 == seq(1, _ => Literal('-')) + Expand(p[5..][1..]);
    assert p[5..][1..] == p[6..];
  }

  /** The regular expression accepts exactly the strings of the hand-coded UUID predicate. */
  lemma UuidRegexAgrees(s: string)
    ensures Matches(UuidRegex, s) <==> UuidPattern(s)
  {
    forall c: char ensures ClassMatches(LowerHex, c) <==> IsLowerHexDigit(c) { HexClass(c); }
    UuidExpansion();
    assert UuidRegex + [] == UuidRegex;
    MatchesFixedPrefix(UuidRegex, [], s);
  }

  /** A UUID that the pattern accepts has no upper-case hex digit anywhere. */
  lemma UuidRejectsUpperCase(s: string, i: int)
    requires Matches(UuidRegex, s) && 0 <= i < |s|
    ensures !('A' <= s[i] <= 'F')
  {
    UuidRegexAgrees(s);
  }

  /** The regular expression accepts exactly the strings of the hand-coded path predicate. */
  lemma PathRegexAgrees(s: string)
    ensures Matches(PathRegex, s) <==> PathPattern(s)
  {
    var rest := [Term(AnyButLineTerminator, Star)];
    assert PathRegex == [One(Literal('/'))] + rest;
    MatchesExactly(Literal('/'), 1, rest, s);
    if |s| >= 1 {
      MatchesStarLast(AnyButLineTerminator, s[1..]);
      assert forall i :: 1 <= i < |s| ==> s[i] == s[1..][i - 1];
    }
  }

  /** The regular expression accepts exactly the strings of the hand-coded URL predicate. */
  lemma UrlRegexAgrees(s: string)
    ensures Matches(UrlRegex, s) <==> UrlPattern(s)
  {
    var prefix := UrlRegex[..10];
    var rest := [Term(NoneOf([], true), Star)];
    assert UrlRegex == prefix + rest;
    assert AllFixed(prefix);
    ExpandSingles(prefix);
    var e := Expand(prefix);
    assert e == [Literal('h'), Literal('t'), Literal('t'), Literal('p'), Literal('s'),
                 Literal(':'), Literal('/'), Literal('/'), NoneOf("/$.?#", true), AnyButLineTerminator];
    MatchesFixedPrefix(prefix, rest, s);
    if |s| >= 10 {
      MatchesStarLast(NoneOf([], true), s[10..]);
      assert forall i :: 10 <= i < |s| ==> s[i] == s[10..][i - 10];
      if forall i :: 0 <= i < 10 ==> ClassMatches(e[i], s[i]) {
        assert s[..8] == "https://";
      }
      if s[..8] == "https://" {
        assert forall i :: 0 <= i < 8 ==> s[i] == s[..8][i];
      }
    }
  }

  /** `http://` is refused, and every accepted URL has at least ten characters. */
  lemma UrlRequiresHttps(s: string)
    requires Matches(UrlRegex, s)
    ensures |s| >= 10 && s[..8] == "https://" && !StartsWith(s, "http://")
  {
    UrlRegexAgrees(s);
    HttpsIsNotHttp(s);
  }

  lemma HttpsIsNotHttp(s: string)
    requires |s| >= 8 && s[..8] == "https://"
    ensures !StartsWith(s, "http://")
  {
    assert s[4] == s[..8][4] == 's';
    assert "http://"[4] == ':';
  }
}
