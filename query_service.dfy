/** The query orchestrator (backend/src/services/query_service.py): the
    advice check, retrieval, context assembly, the LLM call, citation
    selection and the cleaned-up `rag` answer, with the two terminal
    responses for advisory questions and empty retrievals. */
module QueryOrchestrator {
  import opened Wrappers
  import opened Strings
  import opened Models
  import AdviceGuard
  import CitationBuilder
  import Llm
  import Retriever

  const AdviceText :=
    "I\U{2019}m sorry, but I can\U{2019}t " + "provide investment"
    + " or portfolio advice. Please consult a SEBI-registered financial adviser for personalised guidance."
  const FallbackUrl := "https://groww.in/mutual-funds"
  const NotFoundText := "I " + "couldn\U{2019}t find" + " that fact in the official Groww documents I have."
  /** How many retrieved passages are given to the LLM as context. */
  const ContextLimit: nat := 3

  /** `_advice_response`: a non-factual refusal citing the refusal link. */
  function AdviceResponse(refusalLink: string): (a: QueryAnswer)
    ensures a.answerMethod == MethodAdviceGuard && !a.isFactual
    ensures a.citations == [refusalLink]
    ensures Contains(a.answer, "provide investment")
    ensures a.confidence == 1.0 && a.lastUpdated == None
    ensures Strip(a.answer) == a.answer
  {
    var head := "I\U{2019}m sorry, but I can\U{2019}t ";
    assert AdviceText[|head|..|head| + 18] == "provide investment";
    ContainsAt(AdviceText, "provide investment", |head|);
    assert AdviceText[0] == 'I' && AdviceText[|AdviceText| - 1] == '.';
    StripOfTrimmed(AdviceText);
    QueryAnswer(AdviceText, [refusalLink], isFactual := false, answerMethod := MethodAdviceGuard)
  }

  /** `_no_result_response`: the fallback message, ending in the bracketed
      fallback URL, which is also the only citation. */
  function NoResultResponse(): (a: QueryAnswer)
    ensures a.answerMethod == MethodNoResult && a.isFactual
    ensures a.citations == [FallbackUrl] && StartsWith(a.citations[0], "https://groww.in/")
    ensures |a.answer| > |FallbackUrl| + 2 && a.answer[|a.answer| - |FallbackUrl| - 2..] == "[" + FallbackUrl + "]"
    ensures Contains(a.answer, "couldn\U{2019}t find")
    ensures a.confidence == 1.0 && a.lastUpdated == None
    ensures Strip(a.answer) == a.answer
  {
    BracketedAtEnd(NotFoundText, FallbackUrl);
    NotFoundTrimmed(FallbackUrl);
    NotFoundSays(FallbackUrl);
    assert FallbackUrl[..17] == "https://groww.in/";
    QueryAnswer(NotFoundText + " [" + FallbackUrl + "]", [FallbackUrl], answerMethod := MethodNoResult)
  }

  /** A text followed by a bracketed URL ends with that bracketed URL. */
  lemma BracketedAtEnd(text: string, url: string)
    ensures var t := text + " [" + url + "]";
      |t| > |url| + 2 && t[|t| - |url| - 2..] == "[" + url + "]"
  {
    var t := text + " [" + url + "]";
    assert t[|t| - |url| - 2..] == "[" + url + "]";
  }

  /** The fallback message followed by a bracketed URL has no surrounding
      white space. */
  lemma NotFoundTrimmed(url: string)
    ensures var t := NotFoundText + " [" + url + "]"; Strip(t) == t
  {
    var t := NotFoundText + " [" + url + "]";
    assert t[0] == 'I' && t[|t| - 1] == ']';
    StripOfTrimmed(t);
  }

  /** The fallback message says it could not find the fact, whatever URL follows. */
  lemma NotFoundSays(url: string)
    ensures Contains(NotFoundText + " [" + url + "]", "couldn\U{2019}t find")
  {
    var t := NotFoundText + " [" + url + "]";
    assert t[2..15] == NotFoundText[2..15] == "couldn\U{2019}t find";
    ContainsAt(t, "couldn\U{2019}t find", 2);
  }

  /** The label of a context: the section, or "Section" when it is missing or empty. */
  function SectionLabel(p: Passage): string {
    if p.section.Some? && p.section.value != "" then p.section.value else "Section"
  }

  /** One context string: `f"{prefix}: {match.get('content', '')}"`. */
  function ContextOf(p: Passage): string {
    SectionLabel(p) + ": " + p.content.GetOr("")
  }

  /** The contexts the LLM receives: one per passage among the first three. */
  function ContextsOf(ms: seq<Passage>): (cs: seq<string>)
    ensures |cs| <= ContextLimit
    ensures |cs| == if |ms| < ContextLimit then |ms| else ContextLimit
    ensures forall k :: 0 <= k < |cs| ==> cs[k] == ContextOf(ms[k])
  {
    var n := if |ms| < ContextLimit then |ms| else ContextLimit;
    seq(n, k requires 0 <= k < n => ContextOf(ms[k]))
  }

  /** Each context shows its passage's content after its label, and the
      label falls back to "Section" exactly when the section is missing or
      empty (or is itself "Section"). */
  lemma ContextShape(p: Passage)
    ensures StartsWith(ContextOf(p), SectionLabel(p) + ": ")
    ensures ContextOf(p)[|SectionLabel(p)| + 2..] == p.content.GetOr("")
    ensures SectionLabel(p) == "Section" <==> p.section.None? || p.section.value in {"", "Section"}
  {
    var c := ContextOf(p);
    assert c[..|SectionLabel(p)| + 2] == SectionLabel(p) + ": ";
  }

  /** The loop of `handle` that builds `contexts` from `matches[:3]`. */
  method BuildContexts(ms: seq<Passage>) returns (contexts: seq<string>)
    ensures contexts == ContextsOf(ms)
  {
    var top := if |ms| < ContextLimit then ms else ms[..ContextLimit];
    contexts := [];
    for i := 0 to |top|
      invariant |contexts| == i
      invariant forall k :: 0 <= k < i ==> contexts[k] == ContextOf(ms[k])
    {
      var prefix := if top[i].section.Some? && top[i].section.value != "" then top[i].section.value else "Section";
      contexts := contexts + [prefix + ": " + top[i].content.GetOr("")];
    }
  }

  /** `[build_citation(match) for match in matches]`: the first match without
      a URL makes the whole list fail. */
  function BuildAll(ms: seq<Passage>, today: string): (r: Result<seq<Citation>, string>)
    ensures r.Success? <==> forall k :: 0 <= k < |ms| ==> CitationBuilder.BuildCitation(ms[k], today).Success?
    ensures r.Failure? ==> r.error == CitationBuilder.MissingUrl
    ensures r.Success? ==> (|r.value| == |ms| &&
      forall k :: 0 <= k < |ms| ==> r.value[k] == CitationBuilder.BuildCitation(ms[k], today).value)
  {
    if ms == [] then Success([])
    else
      match CitationBuilder.BuildCitation(ms[0], today)
      case Failure(e) => Failure(e)
      case Success(c) =>
        var rest := BuildAll(ms[1..], today);
        if rest.Failure? then
          assert !CitationBuilder.BuildCitation(ms[1..][0], today).Success? || exists k :: 1 <= k < |ms| && !CitationBuilder.BuildCitation(ms[k], today).Success? by {
            var k :| 0 <= k < |ms[1..]| && !CitationBuilder.BuildCitation(ms[1..][k], today).Success?;
            assert ms[1..][k] == ms[k + 1];
          }
          Failure(rest.error)
        else
          Success([c] + rest.value)
  }

  /** The two passes of `_select_best_citation`. */
  datatype Tier = ByScheme | BySection

  /** The lower-cased field of the tier is non-empty and occurs in the
      lower-cased question `lq`. */
  predicate Hit(t: Tier, p: Passage, lq: string) {
    var field := Lower((if t == ByScheme then p.scheme else p.section).GetOr(""));
    field != "" && Contains(lq, field)
  }

  /** The first index whose passage is a hit for the tier. */
  function FirstHit(t: Tier, ms: seq<Passage>, lq: string): (r: Option<nat>)
    ensures r.Some? ==> (r.value < |ms| && Hit(t, ms[r.value], lq) &&
      forall j :: 0 <= j < r.value ==> !Hit(t, ms[j], lq))
    ensures r.None? ==> forall j :: 0 <= j < |ms| ==> !Hit(t, ms[j], lq)
  {
    if ms == [] then None
    else if Hit(t, ms[0], lq) then Some(0)
    else match FirstHit(t, ms[1..], lq)
      case None => None
      case Some(k) => Some(k + 1)
  }

  /** `_select_best_citation`, over `zip(matches, citations)`: the citation of
      the first match whose scheme occurs in the question; failing that, of
      the first whose section does; failing that, the first citation. */
  function SelectBest(ms: seq<Passage>, cits: seq<Citation>, question: string): (c: Citation)
    requires |cits| > 0
    ensures c in cits
    ensures var n := if |ms| < |cits| then |ms| else |cits|; var lq := Lower(question);
      (exists k | 0 <= k < n :: Hit(ByScheme, ms[k], lq)) ==>
        exists k | 0 <= k < n :: c == cits[k] && Hit(ByScheme, ms[k], lq) &&
          forall j :: 0 <= j < k ==> !Hit(ByScheme, ms[j], lq)
    ensures var n := if |ms| < |cits| then |ms| else |cits|; var lq := Lower(question);
      (forall k | 0 <= k < n :: !Hit(ByScheme, ms[k], lq)) && (exists k | 0 <= k < n :: Hit(BySection, ms[k], lq)) ==>
        exists k | 0 <= k < n :: c == cits[k] && Hit(BySection, ms[k], lq) &&
          forall j :: 0 <= j < k ==> !Hit(BySection, ms[j], lq)
    ensures var n := if |ms| < |cits| then |ms| else |cits|; var lq := Lower(question);
      (forall k | 0 <= k < n :: !Hit(ByScheme, ms[k], lq) && !Hit(BySection, ms[k], lq)) ==> c == cits[0]
  {
    var n := if |ms| < |cits| then |ms| else |cits|;
    var zipped := ms[..n];
    assert forall k :: 0 <= k < n ==> zipped[k] == ms[k];
    var lq := Lower(question);
    match FirstHit(ByScheme, zipped, lq)
    case Some(k) => cits[k]
    case None =>
      match FirstHit(BySection, zipped, lq)
      case Some(k) => cits[k]
      case None => cits[0]
  }

  /** `answer.replace("[CITATION]", "").strip()`, as the source writes it. */
  function CleanAnswerAsWritten(answer: string): string {
    Strip(RemoveAll(answer, Llm.Marker))
  }

  /** The completion "[CITA[CITATION]TION]". */
  const SplitMarker := "[CITA" + Llm.Marker + "TION]"

  /** The LLM step passes the completion "[CITA[CITATION]TION]" through
      unchanged, since it already contains the marker. */
  lemma SplitMarkerPassesLlm()
    ensures Llm.WithMarker(SplitMarker) == SplitMarker
  {
    var s := SplitMarker;
    var m := Llm.Marker;
    assert s[5..15] == m;
    ContainsAt(s, m, 5);
    assert s[0] == '[' && s[|s| - 1] == ']';
    StripOfTrimmed(s);
  }

  /** One pass of removal can join two halves of the marker into a new
      marker: "[CITA[CITATION]TION]" loses its inner marker and becomes
      "[CITATION]", so the answer the source returns still holds one. */
  lemma SingleReplaceLeavesMarker()
    ensures CleanAnswerAsWritten(SplitMarker) == Llm.Marker
    ensures Contains(CleanAnswerAsWritten(SplitMarker), Llm.Marker)
  {
    RemoveJoinsHalves();
    Llm.MarkerFacts();
  }

  /** Removal keeps the first character when the text does not start with
      the removed string. */
  lemma RemoveKeepsHead(s: string, m: string, j: nat)
    requires m != [] && j < |m| <= |s| && s[j] != m[j]
    ensures RemoveAll(s, m) == [s[0]] + RemoveAll(s[1..], m)
  {
    assert s[..|m|][j] != m[j];
  }

  /** Removal keeps a character that does not start the removed string, in
      front of what removal makes of the rest. */
  lemma RemoveKeepsHeadAt(s: string, m: string, i: nat, rest: string)
    requires m != [] && i + |m| <= |s| && s[i] != m[0] && RemoveAll(s[i + 1..], m) == rest
    ensures RemoveAll(s[i..], m) == [s[i]] + rest
  {
    assert s[i..][1..] == s[i + 1..];
    RemoveKeepsHead(s[i..], m, 0);
  }

  /** The single pass on "[CITA[CITATION]TION]", step by step: the first
      five characters are kept, the marker after them is dropped, and the
      rest is shorter than the marker. */
  lemma RemoveJoinsHalves()
    ensures RemoveAll(SplitMarker, Llm.Marker) == Llm.Marker
  {
    var s := SplitMarker;
    RemoveKeepsInner();
    RemoveKeepsHead(s, Llm.Marker, 5);
    assert [s[0]] + "CITATION]" == Llm.Marker;
  }

  /** After the opening bracket, "CITA" is kept and the marker that follows
      is dropped. */
  lemma RemoveKeepsInner()
    ensures RemoveAll(SplitMarker[1..], Llm.Marker) == "CITATION]"
  {
    var s := SplitMarker;
    RemoveKeepsLast();
    RemoveKeepsHeadAt(s, Llm.Marker, 2, "TATION]");
    RemoveKeepsHeadAt(s, Llm.Marker, 1, "ITATION]");
  }

  /** "TA" before the marker is kept and the marker is dropped. */
  lemma RemoveKeepsLast()
    ensures RemoveAll(SplitMarker[3..], Llm.Marker) == "TATION]"
  {
    var s := SplitMarker;
    RemoveDropsMarker();
    RemoveKeepsHeadAt(s, Llm.Marker, 4, "TION]");
    RemoveKeepsHeadAt(s, Llm.Marker, 3, "ATION]");
  }

  /** The marker at position 5 is dropped, leaving "TION]". */
  lemma RemoveDropsMarker()
    ensures RemoveAll(SplitMarker[5..], Llm.Marker) == "TION]"
  {
    var m := Llm.Marker;
    var tail := "TION]";
    assert SplitMarker[5..] == m + tail;
    assert (m + tail)[..|m|] == m && (m + tail)[|m|..] == tail;
  }


  /** Removal of the marker repeated until none is left. */
  function RemoveMarkers(s: string): (r: string)
    ensures !Contains(r, Llm.Marker)
    ensures |r| <= |s|
    decreases |s|
  {
    if Contains(s, Llm.Marker) then
      RemoveAllContained(s, Llm.Marker);
      RemoveMarkers(RemoveAll(s, Llm.Marker))
    else s
  }

  /** The cleaned `rag` answer: no marker left, no surrounding white space. */
  function CleanAnswer(answer: string): (c: string)
    ensures !Contains(c, Llm.Marker)
    ensures Strip(c) == c
  {
    var r := RemoveMarkers(answer);
    StripKeepsAbsence(r, Llm.Marker);
    StripIdempotent(r);
    Strip(r)
  }

  /** Wherever the single replace already leaves no marker, the cleanup is
      exactly the one the source writes. */
  lemma CleanAnswerAgrees(answer: string)
    requires !Contains(RemoveAll(answer, Llm.Marker), Llm.Marker)
    ensures CleanAnswer(answer) == CleanAnswerAsWritten(answer)
  {
    var m := Llm.Marker;
    var once := RemoveAll(answer, m);
    if Contains(answer, m) {
      assert RemoveMarkers(answer) == RemoveMarkers(once);
      assert RemoveMarkers(once) == once;
    } else {
      RemoveAllAbsent(answer, m);
      assert RemoveMarkers(answer) == answer;
    }
  }

  /** The `rag` tail of `handle` for a non-empty retrieval and the text the
      LLM returned: the citation and date of the selected citation, and the
      answer cleaned by the single replace the source performs. That answer
      is the corrected `CleanAnswer`, free of the marker, whenever one pass
      leaves no marker behind. */
  function RagAnswer(question: string, ms: seq<Passage>, answer: string, today: string): (r: Result<QueryAnswer, string>)
    requires ms != []
    ensures r.Failure? <==> exists k | 0 <= k < |ms| :: CitationBuilder.BuildCitation(ms[k], today).Failure?
    ensures r.Failure? ==> r.error == CitationBuilder.MissingUrl
    ensures r.Success? ==> r.value.answerMethod == MethodRag && r.value.isFactual && r.value.confidence == 1.0
    ensures r.Success? ==> r.value.answer == CleanAnswerAsWritten(answer) && Strip(r.value.answer) == r.value.answer
    ensures r.Success? && !Contains(RemoveAll(answer, Llm.Marker), Llm.Marker) ==>
      r.value.answer == CleanAnswer(answer) && !Contains(r.value.answer, Llm.Marker)
    ensures r.Success? ==> BuildAll(ms, today).Success?
    ensures r.Success? ==> (var best := SelectBest(ms, BuildAll(ms, today).value, question);
      r.value.citations == [best.url] && r.value.lastUpdated == Some(best.lastVerified))
    ensures r.Success? ==> (|r.value.citations| == 1 && r.value.lastUpdated.Some? &&
      exists k | 0 <= k < |ms| :: ms[k].url == Some(r.value.citations[0]) &&
        r.value.lastUpdated.value == CitationBuilder.BuildCitation(ms[k], today).value.lastVerified)
  {
    match BuildAll(ms, today)
    case Failure(e) => Failure(e)
    case Success(cits) =>
      var best := SelectBest(ms, cits, question);
      var k :| 0 <= k < |cits| && cits[k] == best;
      assert ms[k].url == Some(best.url);
      var clean := CleanAnswerAsWritten(answer);
      StripIdempotent(RemoveAll(answer, Llm.Marker));
      assert !Contains(RemoveAll(answer, Llm.Marker), Llm.Marker) ==> clean == CleanAnswer(answer) by {
        if !Contains(RemoveAll(answer, Llm.Marker), Llm.Marker) {
          CleanAnswerAgrees(answer);
        }
      }
      Success(QueryAnswer(clean, [best.url], answerMethod := MethodRag, lastUpdated := Some(best.lastVerified)))
  }

  /** What `handle` returns for the stripped question `q`, given the guard,
      the refusal link, the embedder and chat model of the LLM client, and
      the index and collection of the retriever: the refusal for an advisory
      question, the fallback for an empty retrieval, and otherwise the `rag`
      answer, which fails only on a match without a URL. */
  function Outcome(guard: AdviceGuard.Guard, refusalLink: string, embedder: string -> seq<real>,
                   chat: (string, string) -> string, search: (seq<real>, nat) -> seq<Retriever.Match>,
                   chunks: seq<Passage>, q: string, today: string): (r: Result<QueryAnswer, string>)
    ensures AdviceGuard.AnyMatch(guard.patterns, Strip(q)) ==> r == Success(AdviceResponse(refusalLink))
    ensures r.Failure? ==> r.error == CitationBuilder.MissingUrl && !AdviceGuard.AnyMatch(guard.patterns, Strip(q))
    ensures r.Success? ==> (r.value.isFactual <==> !AdviceGuard.AnyMatch(guard.patterns, Strip(q)))
    ensures r.Success? ==> |r.value.citations| == 1 && Strip(r.value.answer) == r.value.answer
  {
    if AdviceGuard.AnyMatch(guard.patterns, Strip(q)) then Success(AdviceResponse(refusalLink))
    else RetrievedOutcome(embedder, chat, search, chunks, q, today)
  }

  /** What `handle` returns for a question the guard lets through: the
      fallback for an empty retrieval, otherwise the `rag` answer. */
  function RetrievedOutcome(embedder: string -> seq<real>, chat: (string, string) -> string,
                            search: (seq<real>, nat) -> seq<Retriever.Match>, chunks: seq<Passage>,
                            q: string, today: string): (r: Result<QueryAnswer, string>)
    ensures r.Failure? ==> r.error == CitationBuilder.MissingUrl
    ensures r.Success? ==> r.value.isFactual && |r.value.citations| == 1 && Strip(r.value.answer) == r.value.answer
    ensures r == Success(NoResultResponse()) <==>
      Retriever.QueryResult(search, chunks, embedder(q), Retriever.DefaultTopK) == []
  {
    var ms := Retriever.QueryResult(search, chunks, embedder(q), Retriever.DefaultTopK);
    if ms == [] then Success(NoResultResponse())
    else
      var r := RagAnswer(q, ms, Llm.WithMarker(chat(Llm.SystemPrompt, Llm.UserPrompt(q, ContextsOf(ms)))), today);
      assert r.Success? ==> r.value.answerMethod != NoResultResponse().answerMethod;
      r
  }

  /** The question of the backend's advice test is refused by the default
      guard, whatever the collaborators would have answered. */
  lemma DefaultGuardRefusesInvestQuestion(refusalLink: string, embedder: string -> seq<real>,
                                          chat: (string, string) -> string,
                                          search: (seq<real>, nat) -> seq<Retriever.Match>,
                                          chunks: seq<Passage>, today: string)
    ensures var q := Strip("Should I invest in this fund?");
      var r := Outcome(AdviceGuard.Default(), refusalLink, embedder, chat, search, chunks, q, today);
      r.Success? && r.value.answerMethod == MethodAdviceGuard && !r.value.isFactual &&
      Contains(r.value.answer, "provide investment")
  {
    var q := "Should I invest in this fund?";
    AdviceGuard.ShouldIInvestIsAdvisory();
    StripIdempotent(q);
  }

  class QueryService {
    const guard: AdviceGuard.Guard
    const refusalLink: string
    const llm: Llm.OpenAIClient
    const retriever: Retriever.RetrieverService

    /** `QueryService(guard=..., llm=..., retriever=...)`: without a guard,
        the default one is used. */
    constructor (guard: Option<AdviceGuard.Guard>, refusalLink: string,
                 llm: Llm.OpenAIClient, retriever: Retriever.RetrieverService)
      ensures this.guard == guard.GetOr(AdviceGuard.Default())
      ensures this.refusalLink == refusalLink && this.llm == llm && this.retriever == retriever
    {
      this.guard := guard.GetOr(AdviceGuard.Default());
      this.refusalLink := refusalLink;
      this.llm := llm;
      this.retriever := retriever;
    }

    /** `handle`: strips the question, then answers as `Outcome` says. An
        advisory question reaches neither the embedder, the index, the
        collection nor the chat model; an empty retrieval reaches no chat
        model. */
    method Handle(payload: QueryRequest, today: string) returns (r: Result<QueryAnswer, string>)
      modifies llm, retriever
      ensures r == Outcome(guard, refusalLink, llm.embedder, llm.chat, retriever.search, retriever.chunks,
                           Strip(payload.query), today)
      ensures AdviceGuard.AnyMatch(guard.patterns, Strip(Strip(payload.query))) ==>
        llm.embedded == old(llm.embedded) && llm.prompts == old(llm.prompts) &&
        retriever.indexCalls == old(retriever.indexCalls) && retriever.findCalls == old(retriever.findCalls)
      ensures !AdviceGuard.AnyMatch(guard.patterns, Strip(Strip(payload.query))) ==>
        llm.embedded == old(llm.embedded) + [Strip(payload.query)]
      ensures r == Success(NoResultResponse()) ==> llm.prompts == old(llm.prompts)
      ensures !AdviceGuard.AnyMatch(guard.patterns, Strip(Strip(payload.query))) ==>
        CallsOf(llm.embedder(Strip(payload.query)), old(retriever.indexCalls), old(retriever.findCalls),
                old(llm.prompts), Strip(payload.query))
    {
      var question := Strip(payload.query);
      var advisory := AdviceGuard.Classify(guard, question);
      if advisory {
        return Success(AdviceResponse(refusalLink));
      }
      r := Retrieve(question, today);
    }

    /** The requests `handle` makes for a question the guard lets through:
        at most one index query and one `find`, and one chat prompt exactly
        when something was retrieved. */
    ghost predicate CallsOf(e: seq<real>, indexCalls0: nat, findCalls0: nat, prompts0: seq<string>, q: string)
      reads llm, retriever
    {
      var ms := Retriever.QueryResult(retriever.search, retriever.chunks, e, Retriever.DefaultTopK);
      retriever.indexCalls == indexCalls0 + (if e == [] then 0 else 1) &&
      retriever.findCalls == findCalls0 +
        (if e == [] || Retriever.PositiveIds(retriever.search(e, Retriever.DefaultTopK)) == [] then 0 else 1) &&
      llm.prompts == prompts0 + (if ms == [] then [] else [Llm.UserPrompt(q, ContextsOf(ms))])
    }

    /** `handle` after the guard: embed, retrieve, and answer from what was
        retrieved. */
    method Retrieve(question: string, today: string) returns (r: Result<QueryAnswer, string>)
      modifies llm, retriever
      ensures r == RetrievedOutcome(llm.embedder, llm.chat, retriever.search, retriever.chunks, question, today)
      ensures llm.embedded == old(llm.embedded) + [question]
      ensures CallsOf(llm.embedder(question), old(retriever.indexCalls), old(retriever.findCalls), old(llm.prompts), question)
    {
      var embedding := llm.Embed(question);
      var docs := retriever.Query(embedding, Retriever.DefaultTopK);
      var matches := Retriever.Views(docs);
      if matches == [] {
        return Success(NoResultResponse());
      }
      var contexts := BuildContexts(matches);
      var answer := llm.Answer(question, contexts);
      r := RagAnswer(question, matches, answer, today);
    }
  }
}
