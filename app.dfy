/** The decisions the web page makes (frontend/src/App.tsx): the order in
    which an answer's citations are listed, when the submit button is
    disabled, and which heading is shown. The answer payload the page reads
    is the `QueryAnswer` the backend returns. */
module Frontend {
  import opened Wrappers
  import opened Strings
  import opened Lists
  import Models

  const FactsOnlyHeading := "We only provide facts"
  const DefaultHeading := "HDFC Mutual Fund Facts Assistant"
  const MinQuestionLength: nat := 5

  /** The page's request status. */
  datatype Status = Idle | Loading | Failed

  /** A citation's rank: Groww pages first, then HDFC Fund pages, then the rest. */
  function Priority(url: string): (p: nat)
    ensures p <= 2
  {
    if Contains(url, "groww.in") then 0
    else if Contains(url, "hdfcfund.com") then 1
    else 2
  }

  function HasPriority(p: nat): string -> bool {
    url => Priority(url) == p
  }

  /** `sortCitations`: the distinct citations in first-occurrence order
      (`Array.from(new Set(...))`), then stably sorted by priority. A stable
      sort on a key with three values keeps each class in place, one class
      after the other. */
  function SortCitations(citations: seq<string>): (r: seq<string>)
    ensures forall k :: 0 <= k < |r| ==> r[k] in citations
    ensures forall k :: 0 <= k < |citations| ==> citations[k] in r
  {
    var d := Dedup(citations);
    var r := Filter(d, HasPriority(0)) + Filter(d, HasPriority(1)) + Filter(d, HasPriority(2));
    assert forall k :: 0 <= k < |d| ==> d[k] in r by {
      forall k | 0 <= k < |d| ensures d[k] in r {
        assert HasPriority(Priority(d[k]))(d[k]);
      }
    }
    r
  }

  /** The elements a filter keeps come in the order of the input, which holds
      no duplicates. */
  lemma {:induction false} FilterKeepsOrder<T>(xs: seq<T>, p: T -> bool)
    requires NoDuplicates(xs)
    ensures forall i, j :: 0 <= i < j < |Filter(xs, p)| ==>
      FirstIndex(xs, Filter(xs, p)[i]) < FirstIndex(xs, Filter(xs, p)[j])
  {
    if xs != [] {
      var init := xs[..|xs| - 1];
      var x := xs[|xs| - 1];
      assert xs == init + [x];
      assert forall k :: 0 <= k < |init| ==> init[k] == xs[k];
      FilterKeepsOrder(init, p);
      var f := Filter(init, p);
      var r := Filter(xs, p);
      FilterOrderExtends(init, x, p);
      if p(x) {
        assert r == f + [x];
        assert x !in init;
        assert FirstIndex(xs, x) == |init|;
        forall i, j | 0 <= i < j < |r| ensures FirstIndex(xs, r[i]) < FirstIndex(xs, r[j]) {
          assert r[i] == f[i];
          if j < |f| {
            assert r[j] == f[j];
          } else {
            assert r[j] == x;
          }
        }
      } else {
        assert r == f;
      }
    }
  }

  /** The order a filter keeps in a list survives appending one element, and
      its elements come before that element. */
  lemma FilterOrderExtends<T>(init: seq<T>, x: T, p: T -> bool)
    requires forall i, j :: 0 <= i < j < |Filter(init, p)| ==>
      FirstIndex(init, Filter(init, p)[i]) < FirstIndex(init, Filter(init, p)[j])
    ensures var f := Filter(init, p);
      (forall i :: 0 <= i < |f| ==> f[i] in init + [x] && FirstIndex(init + [x], f[i]) < |init|) &&
      forall i, j :: 0 <= i < j < |f| ==> FirstIndex(init + [x], f[i]) < FirstIndex(init + [x], f[j])
  {
    var f := Filter(init, p);
    forall i | 0 <= i < |f| ensures FirstIndex(init + [x], f[i]) == FirstIndex(init, f[i]) {
      FirstIndexOfExtended(init, x, f[i]);
    }
  }


  /** A filter by priority splits a list: every element lands in the class of
      its priority, once. */
  lemma {:induction false} PriorityClassesPartition(xs: seq<string>)
    ensures multiset(Filter(xs, HasPriority(0))) + multiset(Filter(xs, HasPriority(1))) +
            multiset(Filter(xs, HasPriority(2))) == multiset(xs)
  {
    if xs != [] {
      var init := xs[..|xs| - 1];
      assert xs == init + [xs[|xs| - 1]];
      PriorityClassesPartition(init);
    }
  }

  /** The sorted citations are the distinct citations: the same URLs, each
      once (a permutation of the deduplicated list). */
  lemma SortCitationsPermutes(citations: seq<string>)
    ensures multiset(SortCitations(citations)) == multiset(Dedup(citations))
    ensures forall x :: x in SortCitations(citations) <==> x in citations
  {
    PriorityClassesPartition(Dedup(citations));
    var out := SortCitations(citations);
    forall x ensures x in out <==> x in citations {
      assert x in out <==> x in multiset(out);
      assert x in Dedup(citations) <==> x in multiset(Dedup(citations));
    }
  }

  /** A URL ranks 0 exactly when it mentions `groww.in`, so one that also
      mentions `hdfcfund.com` ranks as a Groww page; it ranks 1 when it
      mentions only `hdfcfund.com`. */
  lemma PriorityRule(url: string)
    ensures Priority(url) == 0 <==> Contains(url, "groww.in")
    ensures Priority(url) == 1 <==> !Contains(url, "groww.in") && Contains(url, "hdfcfund.com")
  {
  }

  /** The priority class of the deduplicated citations. */
  function Class(citations: seq<string>, p: nat): seq<string> {
    Filter(Dedup(citations), HasPriority(p))
  }

  /** Where the class of priority `p` starts in the sorted list. */
  function Offset(citations: seq<string>, p: nat): nat {
    if p == 0 then 0
    else if p == 1 then |Class(citations, 0)|
    else |Class(citations, 0)| + |Class(citations, 1)|
  }

  /** Entry `k` of the sorted list lies in the segment of its own priority
      `p`, at position `m` of that class. */
  lemma Segment(citations: seq<string>, k: nat) returns (p: nat, m: nat)
    requires k < |SortCitations(citations)|
    ensures p == Priority(SortCitations(citations)[k])
    ensures m < |Class(citations, p)| && k == Offset(citations, p) + m
    ensures SortCitations(citations)[k] == Class(citations, p)[m]
  {
    var out := SortCitations(citations);
    var f0 := Class(citations, 0);
    var f1 := Class(citations, 1);
    var f2 := Class(citations, 2);
    assert out == f0 + f1 + f2;
    if k < |f0| {
      p, m := 0, k;
      assert out[k] == f0[k] && HasPriority(0)(f0[k]);
    } else if k < |f0| + |f1| {
      p, m := 1, k - |f0|;
      assert out[k] == f1[m] && HasPriority(1)(f1[m]);
    } else {
      p, m := 2, k - |f0| - |f1|;
      assert out[k] == f2[m] && HasPriority(2)(f2[m]);
    }
  }

  /** Groww citations come first, then HDFC Fund ones, then the rest. */
  lemma SortCitationsOrdered(citations: seq<string>)
    ensures var out := SortCitations(citations);
      forall i, j :: 0 <= i < j < |out| ==> Priority(out[i]) <= Priority(out[j])
  {
    var out := SortCitations(citations);
    forall i, j | 0 <= i < j < |out| ensures Priority(out[i]) <= Priority(out[j]) {
      var p, _ := Segment(citations, i);
      var q, _ := Segment(citations, j);
    }
  }

  /** Two entries of one class keep the order they have in the deduplicated list. */
  lemma StableInDedup(citations: seq<string>, i: nat, j: nat)
    requires i < j < |SortCitations(citations)|
    requires Priority(SortCitations(citations)[i]) == Priority(SortCitations(citations)[j])
    ensures var out := SortCitations(citations);
      out[i] in Dedup(citations) && out[j] in Dedup(citations) &&
      FirstIndex(Dedup(citations), out[i]) < FirstIndex(Dedup(citations), out[j])
  {
    var d := Dedup(citations);
    var p, a := Segment(citations, i);
    var q, b := Segment(citations, j);
    DedupDistinct(citations);
    FilterKeepsOrder(d, HasPriority(p));
    assert FirstIndex(d, Class(citations, p)[a]) < FirstIndex(d, Class(citations, p)[b]);
  }

  lemma DedupDistinct(xs: seq<string>)
    ensures NoDuplicates(Dedup(xs))
  {
    DedupOrder(xs);
  }

  /** Within a priority class the citations keep the order of their first
      occurrence, and no citation is listed twice. */
  lemma SortCitationsStable(citations: seq<string>)
    ensures var out := SortCitations(citations);
      forall i, j :: 0 <= i < j < |out| && Priority(out[i]) == Priority(out[j]) ==>
        out[i] in citations && out[j] in citations &&
        FirstIndex(citations, out[i]) < FirstIndex(citations, out[j])
    ensures NoDuplicates(SortCitations(citations))
  {
    var out := SortCitations(citations);
    forall i, j | 0 <= i < j < |out| && Priority(out[i]) == Priority(out[j])
      ensures out[i] in citations && out[j] in citations
      ensures FirstIndex(citations, out[i]) < FirstIndex(citations, out[j])
    {
      StableInInput(citations, i, j);
    }
    forall i, j | 0 <= i < j < |out| ensures out[i] != out[j] {
      if Priority(out[i]) == Priority(out[j]) {
        StableInDedup(citations, i, j);
      }
    }
  }

  /** Two citations of one class keep the order of their first occurrences
      in the input. */
  lemma StableInInput(citations: seq<string>, i: nat, j: nat)
    requires i < j < |SortCitations(citations)|
    requires Priority(SortCitations(citations)[i]) == Priority(SortCitations(citations)[j])
    ensures var out := SortCitations(citations);
      out[i] in citations && out[j] in citations &&
      FirstIndex(citations, out[i]) < FirstIndex(citations, out[j])
  {
    var d := Dedup(citations);
    var out := SortCitations(citations);
    StableInDedup(citations, i, j);
    DedupOrder(citations);
    var a := FirstIndex(d, out[i]);
    var b := FirstIndex(d, out[j]);
    assert d[a] == out[i] && d[b] == out[j];
  }

  /** The number of UTF-16 code units of a string, which is what JavaScript's
      `length` counts: two for a code point beyond the basic plane. */
  function Utf16Length(s: string): (n: nat)
    ensures |s| <= n <= 2 * |s|
  {
    if s == [] then 0 else Utf16Length(s[..|s| - 1]) + (if s[|s| - 1] > '\U{FFFF}' then 2 else 1)
  }

  /** `isDisabled`: the trimmed question is shorter than five code units, or
      a request is in flight. */
  function IsDisabled(question: string, status: Status): (d: bool)
    ensures status == Loading ==> d
    ensures |JsTrim(question)| * 2 < MinQuestionLength ==> d
    ensures |JsTrim(question)| >= MinQuestionLength && status != Loading ==> !d
  {
    Utf16Length(JsTrim(question)) < MinQuestionLength || status == Loading
  }

  /** A question the page lets through is sent, trimmed, with at least the
      three characters the backend's request validation asks for, even when
      all of them lie beyond the basic plane; and it is not blank, so the
      submit handler's emptiness check never stops it. */
  lemma EnabledQuestionLongEnough(question: string, status: Status)
    requires !IsDisabled(question, status)
    ensures status != Loading
    ensures |JsTrim(question)| >= Models.QueryMinLength
    ensures JsTrim(question) != ""
  {
  }

  /** `heading`: the facts-only notice exactly when an answer is shown and it
      is not factual; the title when there is no answer or it is factual. */
  function Heading(answer: Option<Models.QueryAnswer>): (h: string)
    ensures h == FactsOnlyHeading <==> answer.Some? && !answer.value.isFactual
    ensures h == DefaultHeading <==> answer.None? || answer.value.isFactual
  {
    if answer.Some? && answer.value.isFactual == false then FactsOnlyHeading else DefaultHeading
  }
}
