/** The rule-based detector for advisory questions
    (backend/src/services/advice_guard.py).

    A compiled regular expression is modelled by a small abstract syntax with
    exactly the constructs the advisory patterns use: literals, concatenation,
    alternation `(a|b)`, the optional group `(...)?` and `.*`, whose dot (no
    DOTALL flag) matches any character but a newline. Matching is given by the
    set of positions where a match that starts at `i` can end, so backtracking
    needs no modelling. */
module AdviceGuard {
  import opened Strings

  datatype Regex =
    | Lit(text: string)
    | Cat(first: Regex, second: Regex)
    | Alt(left: Regex, right: Regex)
    | Opt(body: Regex)
    | AnyRun

  /** `re.compile(source, flags)`: the expression and whether IGNORECASE is set. */
  datatype Pattern = Pattern(re: Regex, ignoreCase: bool)

  /** An `AdviceGuard` holds its compiled patterns, fixed at construction. */
  datatype Guard = Guard(patterns: seq<Pattern>)

  predicate CharMatches(p: char, c: char, ignoreCase: bool) {
    if ignoreCase then LowerChar(p) == LowerChar(c) else p == c
  }

  /** The literal `lit` matches `s` at position `i`. */
  predicate LitAt(lit: string, s: string, i: nat, ignoreCase: bool) {
    i + |lit| <= |s| && forall k :: 0 <= k < |lit| ==> CharMatches(lit[k], s[i + k], ignoreCase)
  }

  /** The first newline at or after `i`, or the end of `s`. */
  function LineEnd(s: string, i: nat): (e: nat)
    requires i <= |s|
    ensures i <= e <= |s|
    ensures forall k :: i <= k < e ==> s[k] != '\n'
    ensures e == |s| || s[e] == '\n'
    decreases |s| - i
  {
    if i == |s| || s[i] == '\n' then i else LineEnd(s, i + 1)
  }

  /** The positions at which a match of `r` that starts at `i` can end. */
  function Ends(r: Regex, s: string, i: nat, ignoreCase: bool): (ends: set<nat>)
    requires i <= |s|
    ensures forall j :: j in ends ==> i <= j <= |s|
  {
    match r
    case Lit(t) => if LitAt(t, s, i, ignoreCase) then {i + |t|} else {}
    case Cat(a, b) =>
      set k, j | k in Ends(a, s, i, ignoreCase) && j in Ends(b, s, k, ignoreCase) :: j
    case Alt(a, b) => Ends(a, s, i, ignoreCase) + Ends(b, s, i, ignoreCase)
    case Opt(a) => {i} + Ends(a, s, i, ignoreCase)
    case AnyRun => Between(i, LineEnd(s, i))
  }

  /** The positions from `lo` to `hi`, both included. */
  function Between(lo: nat, hi: nat): (r: set<nat>)
    ensures forall j :: j in r <==> lo <= j <= hi
    decreases hi + 1 - lo
  {
    if lo > hi then {} else {lo} + Between(lo + 1, hi)
  }

  /** `pattern.search(s)` succeeds: a match starts somewhere in `s`. */
  predicate Search(p: Pattern, s: string) {
    exists i | 0 <= i <= |s| :: Ends(p.re, s, i, p.ignoreCase) != {}
  }

  /** Some pattern of the list finds a match in `s`. */
  predicate AnyMatch(patterns: seq<Pattern>, s: string) {
    exists k | 0 <= k < |patterns| :: Search(patterns[k], s)
  }

  /** `AdviceGuard.classify`: the question is stripped, then the patterns are
      tried in order and the first success answers true. */
  method Classify(guard: Guard, question: string) returns (advisory: bool)
    ensures advisory <==> AnyMatch(guard.patterns, Strip(question))
    ensures guard.patterns == [] ==> !advisory
  {
    var q := Strip(question);
    for k := 0 to |guard.patterns|
      invariant forall j :: 0 <= j < k ==> !Search(guard.patterns[j], q)
    {
      if Search(guard.patterns[k], q) {
        return true;
      }
    }
    return false;
  }

  function I(re: Regex): Pattern {
    Pattern(re, true)
  }

  /** The pattern `invest(ing)?`, with IGNORECASE. */
  const InvestPattern := I(Cat(Lit("invest"), Opt(Lit("ing"))))

  /** `ADVISORY_PATTERNS`, compiled with IGNORECASE as `AdviceGuard.default` does. */
  function DefaultPatterns(): seq<Pattern> {
    [ I(Cat(Lit("should I "), Alt(Lit("buy"), Lit("sell")))),
      I(Cat(Lit("is "), Cat(Alt(Lit("this"), Lit("it")), Lit(" a good time")))),
      I(Lit("will it go up")),
      I(Lit("recommend")),
      I(Cat(Lit("suggest "), Cat(AnyRun, Lit(" fund")))),
      I(Lit("portfolio")),
      I(Lit("better than")),
      InvestPattern,
      I(Lit("investment advice")) ]
  }

  /** `AdviceGuard.default()`. */
  function Default(): (g: Guard)
    ensures |g.patterns| == 9
    ensures forall k :: 0 <= k < |g.patterns| ==> g.patterns[k].ignoreCase
  {
    Guard(DefaultPatterns())
  }

  /** Case-insensitive matching sees the text only through lower-casing. */
  lemma {:induction false} EndsIgnoreCase(r: Regex, s: string, i: nat)
    requires i <= |s|
    ensures Ends(r, s, i, true) == Ends(r, Lower(s), i, true)
  {
    var t := Lower(s);
    match r
    case Lit(lit) =>
      if i + |lit| <= |s| {
        forall k | 0 <= k < |lit|
          ensures CharMatches(lit[k], s[i + k], true) == CharMatches(lit[k], t[i + k], true)
        {
          assert t[i + k] == LowerChar(s[i + k]);
        }
      }
    case Cat(a, b) =>
      EndsIgnoreCase(a, s, i);
      forall k | k in Ends(a, s, i, true) ensures Ends(b, s, k, true) == Ends(b, t, k, true) {
        EndsIgnoreCase(b, s, k);
      }
    case Alt(a, b) =>
      EndsIgnoreCase(a, s, i);
      EndsIgnoreCase(b, s, i);
    case Opt(a) =>
      EndsIgnoreCase(a, s, i);
    case AnyRun =>
      LineEndIgnoresCase(s, i);
  }

  lemma {:induction false} LineEndIgnoresCase(s: string, i: nat)
    requires i <= |s|
    ensures LineEnd(s, i) == LineEnd(Lower(s), i)
    decreases |s| - i
  {
    if i < |s| {
      assert Lower(s)[i] == LowerChar(s[i]);
      if s[i] != '\n' {
        LineEndIgnoresCase(s, i + 1);
      }
    }
  }

  /** A case-insensitive pattern finds a match in a text exactly when it finds
      one in the lower-cased text. */
  lemma SearchIgnoresCase(p: Pattern, s: string)
    requires p.ignoreCase
    ensures Search(p, s) == Search(p, Lower(s))
  {
    forall i | 0 <= i <= |s| ensures Ends(p.re, s, i, true) == Ends(p.re, Lower(s), i, true) {
      EndsIgnoreCase(p.re, s, i);
    }
  }

  /** With case-insensitive patterns (the default ones), the classification
      of a question does not depend on the case of its letters. */
  lemma ClassifyIgnoresCase(patterns: seq<Pattern>, question: string)
    requires forall k :: 0 <= k < |patterns| ==> patterns[k].ignoreCase
    ensures AnyMatch(patterns, Strip(question)) == AnyMatch(patterns, Strip(Lower(question)))
  {
    StripLowerCommute(question);
    forall k | 0 <= k < |patterns|
      ensures Search(patterns[k], Strip(question)) == Search(patterns[k], Lower(Strip(question)))
    {
      SearchIgnoresCase(patterns[k], Strip(question));
    }
  }

  /** The outcome depends only on which patterns there are, not on their order
      or repetition. */
  lemma ClassifyIgnoresOrder(ps: seq<Pattern>, qs: seq<Pattern>, s: string)
    requires forall k :: 0 <= k < |ps| ==> ps[k] in qs
    requires forall k :: 0 <= k < |qs| ==> qs[k] in ps
    ensures AnyMatch(ps, s) == AnyMatch(qs, s)
  {
    if AnyMatch(ps, s) {
      var k :| 0 <= k < |ps| && Search(ps[k], s);
      var j :| 0 <= j < |qs| && qs[j] == ps[k];
      assert Search(qs[j], s);
    }
    if AnyMatch(qs, s) {
      var k :| 0 <= k < |qs| && Search(qs[k], s);
      var j :| 0 <= j < |ps| && ps[j] == qs[k];
      assert Search(ps[j], s);
    }
  }

  /** Wherever the lower-cased text reads "invest", `invest(ing)?` matches. */
  lemma InvestPatternMatches(t: string, j: nat)
    requires OccursAt(Lower(t), "invest", j)
    ensures Search(InvestPattern, t)
  {
    var lowered := Lower(t);
    assert lowered[j..j + 6] == "invest";
    assert LitAt("invest", t, j, true) by {
      forall k | 0 <= k < 6 ensures CharMatches("invest"[k], t[j + k], true) {
        assert lowered[j + k] == "invest"[k];
      }
    }
    assert j + 6 in Ends(Lit("invest"), t, j, true);
    assert j + 6 in Ends(Opt(Lit("ing")), t, j + 6, true);
    assert j + 6 in Ends(InvestPattern.re, t, j, true);
  }

  /** Any question whose text contains "invest", in any letter case (so also
      "investment" and "investing"), is classified as advisory by the default
      patterns: `invest(ing)?` matches it. */
  lemma InvestIsAdvisory(question: string)
    requires Contains(Lower(question), "invest")
    ensures AnyMatch(Default().patterns, Strip(question))
  {
    InvestSurvivesStrip(question);
    var t := Lower(Strip(question));
    var j :| 0 <= j <= |t| - 6 && OccursAt(t, "invest", j);
    InvestPatternMatches(Strip(question), j);
    DefaultHasInvest(Strip(question));
  }

  /** `invest(ing)?` is one of the default patterns. */
  lemma DefaultHasInvest(s: string)
    requires Search(InvestPattern, s)
    ensures AnyMatch(Default().patterns, s)
  {
    assert Default().patterns[7] == InvestPattern;
  }

  /** Stripping the question keeps an occurrence of "invest" in its lower-cased text. */
  lemma InvestSurvivesStrip(question: string)
    requires Contains(Lower(question), "invest")
    ensures Contains(Lower(Strip(question)), "invest")
  {
    var lowered := Lower(question);
    var i :| 0 <= i <= |lowered| - 6 && OccursAt(lowered, "invest", i);
    InfixSurvivesStrip(lowered, "invest", i);
    StripLowerCommute(question);
  }

  /** The question from the backend's advice test is advisory. */
  lemma ShouldIInvestIsAdvisory()
    ensures AnyMatch(Default().patterns, Strip("Should I invest in this fund?"))
  {
    var q := "Should I invest in this fund?";
    assert q[9..15] == "invest";
    LowerKeepsLowerInfix(q, "invest", 9);
    InvestIsAdvisory(q);
  }
}
