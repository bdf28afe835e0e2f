/** Formatting a retrieved chunk as a citation (backend/src/services/citation.py).
    The clock read becomes the parameter `today`: the current UTC date,
    already formatted as `YYYY-MM-DD`. */
module CitationBuilder {
  import opened Wrappers
  import opened Strings
  import opened Models

  const DefaultText := "HDFC Mutual Fund"
  const VerifiedPrefix := "Last updated from sources: "
  const MissingUrl := "Chunk metadata missing URL"

  /** The date a citation shows: the chunk's own `last_verified` when it is
      present and non-empty, otherwise today's date. */
  function SourceDate(m: Passage, today: string): string {
    if m.lastVerified.Some? && m.lastVerified.value != "" then m.lastVerified.value else today
  }

  /** Reads the date back out of a formatted `last_verified` string. */
  function VerifiedDate(s: string): Option<string> {
    if StartsWith(s, VerifiedPrefix) then Some(s[|VerifiedPrefix|..]) else None
  }

  /** `build_citation`: fails with `ValueError` exactly when the URL is missing
      or empty; otherwise the citation carries the URL unchanged, the scheme
      (or the default text when the key is absent) and a verification string
      from which the source date reads back. */
  function BuildCitation(m: Passage, today: string): (r: Result<Citation, string>)
    ensures r.Failure? <==> m.url.None? || m.url.value == ""
    ensures r.Failure? ==> r.error == MissingUrl
    ensures r.Success? ==> r.value.url == m.url.value
    ensures r.Success? ==> r.value.text == m.scheme.GetOr(DefaultText)
    ensures r.Success? ==> VerifiedDate(r.value.lastVerified) == Some(SourceDate(m, today))
  {
    if m.url.None? || m.url.value == "" then Failure(MissingUrl)
    else
      var lv := VerifiedPrefix + SourceDate(m, today);
      assert lv[..|VerifiedPrefix|] == VerifiedPrefix;
      Success(Citation(m.scheme.GetOr(DefaultText), m.url.value, lv))
  }

  /** The verification string of a built citation shows the source date. */
  lemma CitationShowsDate(m: Passage, today: string)
    requires BuildCitation(m, today).Success?
    ensures Contains(BuildCitation(m, today).value.lastVerified, SourceDate(m, today))
  {
    var c := BuildCitation(m, today).value;
    var d := SourceDate(m, today);
    assert c.lastVerified == VerifiedPrefix + d;
    assert c.lastVerified[|VerifiedPrefix|..|VerifiedPrefix| + |d|] == d;
    ContainsAt(c.lastVerified, d, |VerifiedPrefix|);
  }
}
