/** The API's request and response shapes (backend/src/models.py), and the
    shape of one retrieved chunk document as the query service reads it. */
module Models {
  import opened Wrappers
  import opened Strings

  /** Bounds on `QueryRequest.query`, counted in code points before stripping. */
  const QueryMinLength: nat := 3
  const QueryMaxLength: nat := 500

  datatype QueryRequest = QueryRequest(query: string)

  /** Pydantic's validation of a `QueryRequest`: the query field is accepted
      exactly when its length lies within the bounds; a rejected request
      carries a validation message. */
  function ValidateRequest(query: string): (r: Result<QueryRequest, string>)
    ensures r.Success? <==> QueryMinLength <= |query| <= QueryMaxLength
    ensures r.Success? ==> r.value.query == query
  {
    if |query| < QueryMinLength then Failure("String should have at least 3 characters")
    else if |query| > QueryMaxLength then Failure("String should have at most 500 characters")
    else Success(QueryRequest(query))
  }

  /** Validation looks at the raw text: a query padded with white space is
      accepted even though it is shorter than the minimum once stripped. */
  lemma PaddedQueryPassesValidation(c: char)
    requires !IsSpace(c)
    ensures ValidateRequest("  " + [c]).Success?
    ensures |Strip("  " + [c])| < QueryMinLength
  {
    var s := "  " + [c];
    assert TrimStart(s, IsSpace) == [c] by {
      assert s[1..] == " " + [c] && s[1..][1..] == [c];
      assert IsSpace(s[0]) && IsSpace(s[1..][0]);
      assert TrimStart([c], IsSpace) == [c];
      assert TrimStart(s[1..], IsSpace) == TrimStart([c], IsSpace);
    }
    assert TrimEnd([c], IsSpace) == [c];
  }

  datatype Citation = Citation(text: string, url: string, lastVerified: string)

  /** The `method` tags a `QueryAnswer` can carry. */
  const MethodRag := "rag"
  const MethodAdviceGuard := "advice_guard"
  const MethodNoResult := "no_result"

  /** `QueryAnswer`, with the source's field defaults. */
  datatype QueryAnswer = QueryAnswer(
    answer: string,
    citations: seq<string>,
    isFactual: bool := true,
    confidence: real := 1.0,
    answerMethod: string := MethodRag,
    lastUpdated: Option<string> := None)

  datatype ErrorResponse = ErrorResponse(detail: string, citation: Option<Citation> := None)

  /** A chunk document returned by the retriever, read through `dict.get`:
      `None` stands for a key that is absent. */
  datatype Passage = Passage(
    chunkId: Option<string>,
    scheme: Option<string>,
    category: Option<string>,
    url: Option<string>,
    section: Option<string>,
    content: Option<string>,
    lastVerified: Option<string>,
    score: Option<real>)
}
