/** The Python and JavaScript string built-ins the core relies on: `strip`,
    `trim`, `lower`, `in`, `startswith`, `join`, `split()`, `replace` and
    `str(int)`, over code points. */
module Strings {

  /** Python's `str.isspace` for one code point. */
  predicate IsSpace(c: char) {
    ('\t' <= c <= '\r') || ('\U{1C}' <= c <= ' ') || c == '\U{85}' || c == '\U{A0}'
    || c == '\U{1680}' || ('\U{2000}' <= c <= '\U{200A}') || ('\U{2028}' <= c <= '\U{2029}')
    || c == '\U{202F}' || c == '\U{205F}' || c == '\U{3000}'
  }

  /** The white space and line terminators JavaScript's `String.prototype.trim` removes. */
  predicate IsJsSpace(c: char) {
    ('\t' <= c <= '\r') || c == ' ' || c == '\U{A0}' || c == '\U{1680}'
    || ('\U{2000}' <= c <= '\U{200A}') || ('\U{2028}' <= c <= '\U{2029}')
    || c == '\U{202F}' || c == '\U{205F}' || c == '\U{3000}' || c == '\U{FEFF}'
  }

  /** Drops the leading characters that satisfy `ws`. */
  function TrimStart(s: string, ws: char -> bool): (r: string)
    ensures |r| <= |s| && r == s[|s| - |r|..]
    ensures forall k :: 0 <= k < |s| - |r| ==> ws(s[k])
    ensures r == [] || !ws(r[0])
  {
    if |s| > 0 && ws(s[0]) then TrimStart(s[1..], ws) else s
  }

  /** Drops the trailing characters that satisfy `ws`. */
  function TrimEnd(s: string, ws: char -> bool): (r: string)
    ensures |r| <= |s| && r == s[..|r|]
    ensures forall k :: |r| <= k < |s| ==> ws(s[k])
    ensures r == [] || !ws(r[|r| - 1])
  {
    if |s| > 0 && ws(s[|s| - 1]) then TrimEnd(s[..|s| - 1], ws) else s
  }

  /** Python's `str.strip()`. */
  function Strip(s: string): string {
    TrimEnd(TrimStart(s, IsSpace), IsSpace)
  }

  /** JavaScript's `String.prototype.trim()`. */
  function JsTrim(s: string): string {
    TrimEnd(TrimStart(s, IsJsSpace), IsJsSpace)
  }

  /** A stripped string is a slice of the input with only white space cut off
      on either side. */
  lemma StripSpan(s: string) returns (a: nat, b: nat)
    ensures a <= b <= |s| && Strip(s) == s[a..b]
    ensures forall k :: 0 <= k < a ==> IsSpace(s[k])
    ensures forall k :: b <= k < |s| ==> IsSpace(s[k])
  {
    var t := TrimStart(s, IsSpace);
    var r := TrimEnd(t, IsSpace);
    a := |s| - |t|;
    b := a + |r|;
    assert t == s[a..];
    assert r == t[..|r|];
    forall k | b <= k < |s| ensures IsSpace(s[k]) {
      assert s[k] == t[k - a];
    }
  }

  /** A stripped string neither starts nor ends with white space. */
  lemma StripEnds(s: string)
    ensures var r := Strip(s); r == [] || (!IsSpace(r[0]) && !IsSpace(r[|r| - 1]))
  {
    var t := TrimStart(s, IsSpace);
    var r := TrimEnd(t, IsSpace);
    if r != [] {
      assert r[0] == t[0];
    }
  }

  /** Stripping twice is stripping once. */
  lemma StripIdempotent(s: string)
    ensures Strip(Strip(s)) == Strip(s)
  {
    var r := Strip(s);
    StripEnds(s);
    assert TrimStart(r, IsSpace) == r;
    assert TrimEnd(r, IsSpace) == r;
  }

  /** Stripping a string that neither starts nor ends with white space leaves it alone. */
  lemma StripOfTrimmed(s: string)
    requires s == [] || (!IsSpace(s[0]) && !IsSpace(s[|s| - 1]))
    ensures Strip(s) == s
  {
    assert TrimStart(s, IsSpace) == s;
  }

  /** ASCII lower-casing of one character. */
  function LowerChar(c: char): char {
    if 'A' <= c <= 'Z' then (c as int + 32) as char else c
  }

  /** `str.lower()`, restricted to ASCII letters. */
  function Lower(s: string): (r: string)
    ensures |r| == |s|
    ensures forall k :: 0 <= k < |s| ==> r[k] == LowerChar(s[k])
  {
    seq(|s|, k requires 0 <= k < |s| => LowerChar(s[k]))
  }

  /** `sub` occurs in `s` starting at index `i`. */
  predicate OccursAt(s: string, sub: string, i: int) {
    0 <= i <= |s| - |sub| && s[i..i + |sub|] == sub
  }

  /** Lower-casing never turns a character into white space or back. */
  lemma LowerKeepsSpace(c: char)
    ensures IsSpace(LowerChar(c)) == IsSpace(c)
  {
  }

  lemma {:induction false} TrimStartLower(s: string)
    ensures TrimStart(Lower(s), IsSpace) == Lower(TrimStart(s, IsSpace))
  {
    if |s| > 0 {
      LowerKeepsSpace(s[0]);
      if IsSpace(s[0]) {
        assert Lower(s)[1..] == Lower(s[1..]);
        TrimStartLower(s[1..]);
      }
    }
  }

  lemma {:induction false} TrimEndLower(s: string)
    ensures TrimEnd(Lower(s), IsSpace) == Lower(TrimEnd(s, IsSpace))
  {
    if |s| > 0 {
      LowerKeepsSpace(s[|s| - 1]);
      if IsSpace(s[|s| - 1]) {
        assert Lower(s)[..|s| - 1] == Lower(s[..|s| - 1]);
        TrimEndLower(s[..|s| - 1]);
      }
    }
  }

  /** Stripping and lower-casing commute. */
  lemma StripLowerCommute(s: string)
    ensures Strip(Lower(s)) == Lower(Strip(s))
  {
    TrimStartLower(s);
    TrimEndLower(TrimStart(s, IsSpace));
  }

  /** Python's `sub in s`. */
  predicate Contains(s: string, sub: string) {
    exists i | 0 <= i <= |s| - |sub| :: OccursAt(s, sub, i)
  }

  /** An infix already in lower case is still there after lower-casing. */
  lemma LowerKeepsLowerInfix(s: string, w: string, i: nat)
    requires OccursAt(s, w, i)
    requires forall k :: 0 <= k < |w| ==> LowerChar(w[k]) == w[k]
    ensures Contains(Lower(s), w)
  {
    var t := Lower(s);
    forall k | 0 <= k < |w| ensures t[i..i + |w|][k] == w[k] {
      assert s[i..i + |w|][k] == w[k];
    }
    assert OccursAt(t, w, i);
  }

  lemma ContainsAt(s: string, sub: string, i: nat)
    requires i + |sub| <= |s| && s[i..i + |sub|] == sub
    ensures Contains(s, sub)
  {
    assert OccursAt(s, sub, i);
  }

  lemma {:induction false} TrimStartKeepsOccurrence(s: string, w: string, i: nat, ws: char -> bool)
    returns (j: nat)
    requires OccursAt(s, w, i) && w != [] && !ws(w[0])
    ensures OccursAt(TrimStart(s, ws), w, j)
  {
    if |s| > 0 && ws(s[0]) {
      assert i != 0 by { assert s[i] == w[0]; }
      assert s[1..][i - 1..i - 1 + |w|] == s[i..i + |w|];
      j := TrimStartKeepsOccurrence(s[1..], w, i - 1, ws);
    } else {
      j := i;
    }
  }

  lemma {:induction false} TrimEndKeepsOccurrence(s: string, w: string, i: nat, ws: char -> bool)
    requires OccursAt(s, w, i) && w != [] && !ws(w[|w| - 1])
    ensures OccursAt(TrimEnd(s, ws), w, i)
  {
    if |s| > 0 && ws(s[|s| - 1]) {
      assert i + |w| != |s| by { assert s[i + |w| - 1] == w[|w| - 1]; }
      assert s[..|s| - 1][i..i + |w|] == s[i..i + |w|];
      TrimEndKeepsOccurrence(s[..|s| - 1], w, i, ws);
    }
  }

  /** An occurrence of a word that neither starts nor ends with white space
      survives stripping. */
  lemma InfixSurvivesStrip(s: string, w: string, i: nat)
    requires OccursAt(s, w, i) && w != []
    requires !IsSpace(w[0]) && !IsSpace(w[|w| - 1])
    ensures Contains(Strip(s), w)
  {
    var j := TrimStartKeepsOccurrence(s, w, i, IsSpace);
    TrimEndKeepsOccurrence(TrimStart(s, IsSpace), w, j, IsSpace);
  }

  /** `s.startswith(p)`. */
  predicate StartsWith(s: string, p: string) {
    |p| <= |s| && s[..|p|] == p
  }

  /** `sep.join(parts)`. */
  function Join(sep: string, parts: seq<string>): string
  {
    if |parts| == 0 then ""
    else if |parts| == 1 then parts[0]
    else parts[0] + sep + Join(sep, parts[1..])
  }

  /** Every joined part appears in the joined string. */
  lemma {:induction false} JoinContainsPart(sep: string, parts: seq<string>, k: nat)
    requires k < |parts|
    ensures Contains(Join(sep, parts), parts[k])
  {
    var j := Join(sep, parts);
    if |parts| == 1 {
      ContainsAt(j, parts[0], 0);
    } else if k == 0 {
      assert j[0..|parts[0]|] == parts[0];
      ContainsAt(j, parts[0], 0);
    } else {
      JoinContainsPart(sep, parts[1..], k - 1);
      var rest := Join(sep, parts[1..]);
      assert parts[1..][k - 1] == parts[k];
      var i :| OccursAt(rest, parts[k], i);
      assert OccursAt(rest, parts[k], i);
      assert 0 <= i <= |rest| - |parts[k]| && rest[i..i + |parts[k]|] == parts[k];
      var off := |parts[0]| + |sep|;
      assert j == parts[0] + sep + rest;
      assert j[off + i..off + i + |parts[k]|] == rest[i..i + |parts[k]|];
      ContainsAt(j, parts[k], off + i);
    }
  }

  /** Joining with a separator that holds no white space, parts that neither
      hold nor are white space, gives a string that neither starts nor ends with
      white space. */
  lemma {:induction false} JoinOfWordsIsTrimmed(sep: string, parts: seq<string>)
    requires forall k :: 0 <= k < |parts| ==> parts[k] != [] && !IsSpace(parts[k][0]) && !IsSpace(parts[k][|parts[k]| - 1])
    ensures var j := Join(sep, parts); j == [] || (!IsSpace(j[0]) && !IsSpace(j[|j| - 1]))
  {
    if |parts| > 1 {
      JoinOfWordsIsTrimmed(sep, parts[1..]);
      var rest := Join(sep, parts[1..]);
      var j := parts[0] + sep + rest;
      assert rest != [] by { assert parts[1..][0] == parts[1]; }
      assert j[0] == parts[0][0];
      assert j[|j| - 1] == rest[|rest| - 1];
    }
  }

  /** The longest prefix of `s` free of white space. */
  function Word(s: string): (r: string)
    ensures |r| <= |s| && r == s[..|r|]
    ensures forall k :: 0 <= k < |r| ==> !IsSpace(r[k])
    ensures |r| == |s| || IsSpace(s[|r|])
  {
    if |s| == 0 || IsSpace(s[0]) then "" else [s[0]] + Word(s[1..])
  }

  /** A token of `Split`: non-empty and free of white space. */
  predicate IsToken(w: string) {
    w != [] && forall c :: 0 <= c < |w| ==> !IsSpace(w[c])
  }

  /** Drops leading white space (the same as `TrimStart(s, IsSpace)`, kept
      first-order for the split). */
  function SkipSpace(s: string): (r: string)
    ensures |r| <= |s|
    ensures r == [] || !IsSpace(r[0])
  {
    if |s| > 0 && IsSpace(s[0]) then SkipSpace(s[1..]) else s
  }

  /** Python's `str.split()` without arguments: the maximal runs of
      non-white-space characters, in order. */
  function Split(s: string): (r: seq<string>)
    ensures forall k :: 0 <= k < |r| ==> IsToken(r[k])
    decreases |s|
  {
    var t := SkipSpace(s);
    if t == [] then []
    else
      var w := Word(t);
      [w] + Split(t[|w|..])
  }

  /** The first word of a token followed by white space (or nothing) is the token. */
  lemma {:induction false} WordOfToken(w: string, rest: string)
    requires IsToken(w) && (rest == [] || IsSpace(rest[0]))
    ensures Word(w + rest) == w
  {
    var s := w + rest;
    assert s[0] == w[0] && s[1..] == w[1..] + rest;
    if |w| == 1 {
      assert w[1..] + rest == rest;
    } else {
      WordOfToken(w[1..], rest);
    }
  }

  /** Splitting a token followed by white space (or nothing) yields the
      token, then the split of the rest. */
  lemma SplitOfToken(w: string, rest: string)
    requires IsToken(w) && (rest == [] || IsSpace(rest[0]))
    ensures Split(w + rest) == [w] + Split(rest)
  {
    var s := w + rest;
    assert SkipSpace(s) == s by { assert s[0] == w[0]; }
    WordOfToken(w, rest);
    assert s[|w|..] == rest;
    if rest != [] {
      assert SkipSpace(rest) == SkipSpace(rest[1..]);
    }
  }

  /** A leading space changes nothing in a split. */
  lemma SplitAfterSpace(j: string)
    ensures Split(" " + j) == Split(j)
  {
    assert (" " + j)[1..] == j;
    assert SkipSpace(" " + j) == SkipSpace(j);
  }

  /** A token, a space, then anything: the token leads the split. */
  lemma SplitTokenSpace(w: string, j: string)
    requires IsToken(w)
    ensures Split(w + " " + j) == [w] + Split(j)
  {
    var tail := " " + j;
    assert w + " " + j == w + tail;
    SplitOfToken(w, tail);
    SplitAfterSpace(j);
  }

  /** Splitting tokens joined by single spaces gives the tokens back. */
  lemma {:induction false} SplitJoinRoundTrip(ts: seq<string>)
    requires forall k :: 0 <= k < |ts| ==> IsToken(ts[k])
    ensures Split(Join(" ", ts)) == ts
  {
    if |ts| == 0 {
      assert SkipSpace("") == "";
    } else if |ts| == 1 {
      SplitOfToken(ts[0], "");
      assert ts[0] + "" == ts[0];
      assert SkipSpace("") == "";
    } else {
      var rest := ts[1..];
      SplitJoinRoundTrip(rest);
      SplitTokenSpace(ts[0], Join(" ", rest));
      assert ts == [ts[0]] + rest;
    }
  }

  /** `s.replace(m, "")`: occurrences of `m` found left to right, without
      overlap, in the ORIGINAL string, are deleted. */
  function RemoveAll(s: string, m: string): (r: string)
    requires m != []
    ensures |r| <= |s|
    decreases |s|
  {
    if |s| < |m| then s
    else if s[..|m|] == m then RemoveAll(s[|m|..], m)
    else [s[0]] + RemoveAll(s[1..], m)
  }

  /** A string without the marker is left unchanged by its removal. */
  lemma {:induction false} RemoveAllAbsent(s: string, m: string)
    requires m != [] && !Contains(s, m)
    ensures RemoveAll(s, m) == s
  {
    if |s| >= |m| {
      if s[..|m|] == m {
        ContainsAt(s, m, 0);
      } else {
        if Contains(s[1..], m) {
          var i :| OccursAt(s[1..], m, i);
          assert OccursAt(s[1..], m, i);
          assert 0 <= i <= |s| - 1 - |m| && s[1..][i..i + |m|] == m;
          assert s[i + 1..i + 1 + |m|] == m;
          ContainsAt(s, m, i + 1);
        }
        RemoveAllAbsent(s[1..], m);
      }
    }
  }

  /** Removal shortens every string that holds the removed text. */
  lemma {:induction false} RemoveAllContained(s: string, m: string)
    requires m != [] && Contains(s, m)
    ensures |RemoveAll(s, m)| < |s|
  {
    if s[..|m|] != m {
      var i :| OccursAt(s, m, i);
      assert OccursAt(s, m, i);
      assert i != 0;
      assert s[1..][i - 1..i - 1 + |m|] == s[i..i + |m|];
      ContainsAt(s[1..], m, i - 1);
      RemoveAllContained(s[1..], m);
    }
  }

  /** A slice of `s` holds only what `s` holds. */
  lemma SliceContains(s: string, a: nat, b: nat, m: string)
    requires a <= b <= |s| && Contains(s[a..b], m)
    ensures Contains(s, m)
  {
    var i :| OccursAt(s[a..b], m, i);
    assert OccursAt(s[a..b], m, i);
    var sub := s[a..b];
    assert sub[i..i + |m|] == m;
    forall t | 0 <= t < |m| ensures s[a + i..a + i + |m|][t] == m[t] {
      assert m[t] == sub[i + t];
    }
    ContainsAt(s, m, a + i);
  }

  /** Stripping cannot create an occurrence. */
  lemma StripKeepsAbsence(s: string, m: string)
    requires !Contains(s, m)
    ensures !Contains(Strip(s), m)
  {
    var a, b := StripSpan(s);
    if Contains(Strip(s), m) {
      SliceContains(s, a, b, m);
    }
  }

  function DigitChar(d: nat): char
    requires d < 10
  {
    ('0' as int + d) as char
  }

  /** Python's `str(n)` for a natural number. */
  function NatToString(n: nat): (r: string)
    ensures |r| > 0
    ensures forall k :: 0 <= k < |r| ==> '0' <= r[k] <= '9'
  {
    if n < 10 then [DigitChar(n)] else NatToString(n / 10) + [DigitChar(n % 10)]
  }

  /** Reads a string of decimal digits back as a number. */
  function ParseNat(s: string): nat
    requires forall k :: 0 <= k < |s| ==> '0' <= s[k] <= '9'
  {
    if s == [] then 0 else ParseNat(s[..|s| - 1]) * 10 + (s[|s| - 1] as int - '0' as int)
  }

  /** `str(n)` reads back as `n`. */
  lemma {:induction false} NatToStringRoundTrip(n: nat)
    ensures ParseNat(NatToString(n)) == n
  {
    if n >= 10 {
      NatToStringRoundTrip(n / 10);
      var s := NatToString(n);
      assert s[..|s| - 1] == NatToString(n / 10);
    }
  }

  /** Distinct numbers print differently. */
  lemma NatToStringInjective(m: nat, n: nat)
    requires NatToString(m) == NatToString(n)
    ensures m == n
  {
    NatToStringRoundTrip(m);
    NatToStringRoundTrip(n);
  }
}
