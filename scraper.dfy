/** The scraper of the data pipeline (data-pipeline/src/scraper.py and the
    scheme list of data-pipeline/src/constants.py): fetching a page with
    retries, cleaning its visible text, collecting its Groww links, adding
    the fund-management section for one scheme, and scraping every scheme.

    The network is the function `net`: what `requests.get` gives for a URL on
    a numbered attempt, a reply or a raised exception. The HTML parser is the
    record of functions `HtmlParser`. The date of the run is a parameter. */
module Scraper {
  import opened Wrappers
  import opened Strings
  import opened Lists
  import opened PipelineModels

  const DefaultRetries: int := 3
  const GrowwPrefix := "https://groww.in/"
  const FlexiCapScheme := "HDFC Flexi Cap Fund Direct Plan Growth"
  const FundManagement := "Fund management"

  /** `SCHEME_URLS`: the scheme pages to scrape, in order. */
  const SchemeUrls: seq<SchemePage> := [
    SchemePage("HDFC ELSS Tax Saver Fund Direct Plan Growth", "ELSS",
               "https://groww.in/mutual-funds/hdfc-elss-tax-saver-fund-direct-plan-growth"),
    SchemePage("HDFC Flexi Cap Fund Direct Plan Growth", "Flexi Cap",
               "https://groww.in/mutual-funds/hdfc-equity-fund-direct-growth"),
    SchemePage("HDFC Large and Mid Cap Fund Direct Growth", "Large & Mid Cap",
               "https://groww.in/mutual-funds/hdfc-large-and-mid-cap-fund-direct-growth"),
    SchemePage("HDFC Small Cap Fund Direct Growth", "Small Cap",
               "https://groww.in/mutual-funds/hdfc-small-cap-fund-direct-growth"),
    SchemePage("HDFC Multi Cap Fund Direct Growth", "Multi Cap",
               "https://groww.in/mutual-funds/hdfc-multi-cap-fund-direct-growth"),
    SchemePage("Groww Capital Gains Statement Guide", "Help Center",
               "https://groww.in/blog/how-to-get-capital-gains-statement-for-mutual-fund-investments")
  ]

  // Fetching

  /** What one `requests.get` gives: a reply, or an exception it raised. */
  datatype Outcome = Reply(status: nat, body: string) | Raised(message: string)

  predicate Ok(o: Outcome) {
    o.Reply? && o.status == 200
  }

  /** The message of a failed attempt: the `RuntimeError` raised for a
      status other than 200, or the exception itself. */
  function AttemptError(url: string, o: Outcome): string {
    match o
    case Reply(status, _) => url + " returned " + NatToString(status)
    case Raised(message) => message
  }

  /** `fetch_html(url, retries=retries)` from attempt `attempt` on: the
      outcome and the number of the last attempt made. */
  function FetchFrom(url: string, retries: int, net: (string, nat) -> Outcome, attempt: nat): (Result<string, string>, nat)
    requires 1 <= attempt
    decreases retries - attempt
  {
    if attempt > retries then (Failure("Failed to fetch " + url), attempt - 1)
    else if Ok(net(url, attempt)) then (Success(net(url, attempt).body), attempt)
    else if attempt == retries then (Failure(AttemptError(url, net(url, attempt))), attempt)
    else FetchFrom(url, retries, net, attempt + 1)
  }

  function Fetch(url: string, retries: int, net: (string, nat) -> Outcome): (Result<string, string>, nat) {
    FetchFrom(url, retries, net, 1)
  }

  lemma {:induction false} FetchFromOutcome(url: string, retries: int, net: (string, nat) -> Outcome, attempt: nat)
    requires 1 <= attempt <= retries
    requires forall a :: 1 <= a < attempt ==> !Ok(net(url, a))
    ensures var (r, n) := FetchFrom(url, retries, net, attempt);
      attempt <= n <= retries &&
      (r.Success? <==> exists a :: 1 <= a <= retries && Ok(net(url, a))) &&
      (r.Success? ==> Ok(net(url, n)) && r.value == net(url, n).body &&
                      forall a :: 1 <= a < n ==> !Ok(net(url, a))) &&
      (r.Failure? ==> n == retries && r.error == AttemptError(url, net(url, retries)))
    decreases retries - attempt
  {
    if !Ok(net(url, attempt)) && attempt < retries {
      FetchFromOutcome(url, retries, net, attempt + 1);
    }
  }

  /** `fetch_html` makes at most `retries` attempts and returns the body of
      the first reply with status 200; when there is none it fails with the
      error of attempt `retries`, and with "Failed to fetch" when `retries`
      allows no attempt at all. */
  lemma FetchOutcome(url: string, retries: int, net: (string, nat) -> Outcome)
    ensures var (r, n) := Fetch(url, retries, net);
      n <= (if retries < 0 then 0 else retries) &&
      (retries < 1 ==> n == 0 && r == Failure("Failed to fetch " + url)) &&
      (r.Success? <==> exists a :: 1 <= a <= retries && Ok(net(url, a))) &&
      (r.Success? ==> 1 <= n && Ok(net(url, n)) && r.value == net(url, n).body &&
                      forall a :: 1 <= a < n ==> !Ok(net(url, a))) &&
      (r.Failure? && 1 <= retries ==> n == retries && r.error == AttemptError(url, net(url, retries)))
  {
    if 1 <= retries {
      FetchFromOutcome(url, retries, net, 1);
    }
  }

  /** `fetch_html`: the outcome and the number of attempts made. */
  method FetchHtml(url: string, retries: int, net: (string, nat) -> Outcome)
    returns (r: Result<string, string>, attempts: nat)
    ensures (r, attempts) == Fetch(url, retries, net)
  {
    attempts := 0;
    var attempt := 1;
    while attempt <= retries
      invariant 1 <= attempt && attempts == attempt - 1
      invariant FetchFrom(url, retries, net, attempt) == Fetch(url, retries, net)
      decreases retries - attempt
    {
      attempts := attempt;
      var outcome := net(url, attempt);
      if Ok(outcome) {
        return Success(outcome.body), attempts;
      }
      if attempt == retries {
        return Failure(AttemptError(url, outcome)), attempts;
      }
      attempt := attempt + 1;
    }
    return Failure("Failed to fetch " + url), attempts;
  }

  // Visible text

  /** The code points at which `str.splitlines` breaks a line. */
  predicate IsLineBreak(c: char) {
    c == '\n' || c == '\r' || c == '\U{0B}' || c == '\U{0C}' || ('\U{1C}' <= c <= '\U{1E}')
    || c == '\U{85}' || c == '\U{2028}' || c == '\U{2029}'
  }

  predicate NoLineBreak(s: string) {
    forall k :: 0 <= k < |s| ==> !IsLineBreak(s[k])
  }

  /** The length of the first line of `s`. */
  function LineEnd(s: string): (i: nat)
    ensures i <= |s| && NoLineBreak(s[..i])
    ensures i < |s| ==> IsLineBreak(s[i])
  {
    if s == [] || IsLineBreak(s[0]) then 0 else 1 + LineEnd(s[1..])
  }

  /** The lines of `s`, cut at every line break. */
  function SplitLines(s: string): (r: seq<string>)
    ensures r != []
    ensures forall k :: 0 <= k < |r| ==> NoLineBreak(r[k])
    decreases |s|
  {
    var i := LineEnd(s);
    if i == |s| then [s] else [s[..i]] + SplitLines(s[i + 1..])
  }

  function StripAll(lines: seq<string>): (r: seq<string>)
    ensures |r| == |lines| && forall k :: 0 <= k < |r| ==> r[k] == Strip(lines[k])
  {
    seq(|lines|, k requires 0 <= k < |lines| => Strip(lines[k]))
  }

  predicate NonEmpty(s: string) {
    s != ""
  }

  /** `[line.strip() for line in text.splitlines() if line.strip()]`. */
  function CleanLines(visible: string): seq<string> {
    Filter(StripAll(SplitLines(visible)), NonEmpty)
  }

  /** The cleaned text: the cleaned lines joined with `\n`. */
  function CleanText(visible: string): string {
    Join("\n", CleanLines(visible))
  }

  /** Stripping a line with no line break leaves a line with no line break. */
  lemma StripKeepsNoLineBreak(s: string)
    requires NoLineBreak(s)
    ensures NoLineBreak(Strip(s))
  {
    var a, b := StripSpan(s);
    assert forall k :: 0 <= k < |Strip(s)| ==> Strip(s)[k] == s[a + k];
  }

  /** Lines without line breaks, joined with `\n`, split back into themselves. */
  lemma {:induction false} SplitLinesOfJoin(parts: seq<string>)
    requires parts != []
    requires forall k :: 0 <= k < |parts| ==> NoLineBreak(parts[k])
    ensures SplitLines(Join("\n", parts)) == parts
  {
    var j := Join("\n", parts);
    if |parts| == 1 {
      assert LineEnd(j) == |j| by { LineEndOfPrefix(parts[0], ""); }
    } else {
      var rest := Join("\n", parts[1..]);
      var n := |parts[0]|;
      assert j == parts[0] + ("\n" + rest);
      LineEndOfPrefix(parts[0], "\n" + rest);
      assert j[n] == '\n';
      assert j[n + 1..] == rest;
      assert j[..n] == parts[0];
      assert SplitLines(j) == [j[..n]] + SplitLines(j[n + 1..]);
      SplitLinesOfJoin(parts[1..]);
      assert parts == [parts[0]] + parts[1..];
    }
  }

  /** The first line of `p + q` ends where `p` ends when `p` has no line
      break and `q` is empty or starts with one. */
  lemma {:induction false} LineEndOfPrefix(p: string, q: string)
    requires NoLineBreak(p)
    requires q == [] || IsLineBreak(q[0])
    ensures LineEnd(p + q) == |p|
  {
    if p != [] {
      assert (p + q)[1..] == p[1..] + q;
      LineEndOfPrefix(p[1..], q);
    } else {
      assert p + q == q;
    }
  }

  /** The cleaned text is its non-blank lines, stripped, in order, joined with
      `\n`: read back line by line it gives exactly those lines, each non-empty
      and already stripped, and it is empty when there are none. Every
      non-blank input line is among them. */
  lemma CleanTextLines(visible: string)
    ensures var lines := CleanLines(visible);
      (lines == [] <==> CleanText(visible) == "") &&
      (lines != [] ==> SplitLines(CleanText(visible)) == lines) &&
      (forall k :: 0 <= k < |lines| ==> lines[k] != "" && Strip(lines[k]) == lines[k]) &&
      (forall k :: 0 <= k < |lines| ==> lines[k] in StripAll(SplitLines(visible))) &&
      (forall l :: l in SplitLines(visible) && Strip(l) != "" ==> Strip(l) in lines)
  {
    var input := SplitLines(visible);
    var stripped := StripAll(input);
    var lines := CleanLines(visible);
    CleanLinesAreClean(visible);
    if lines != [] {
      SplitLinesOfJoin(lines);
      JoinNonEmpty(lines);
    }
    forall l | l in input && Strip(l) != "" ensures Strip(l) in lines {
      var i :| 0 <= i < |input| && input[i] == l;
      assert stripped[i] == Strip(l);
    }
  }

  /** Each cleaned line is non-empty, stripped and free of line breaks. */
  lemma CleanLinesAreClean(visible: string)
    ensures var lines := CleanLines(visible);
      forall k :: 0 <= k < |lines| ==> NoLineBreak(lines[k]) && lines[k] != "" && Strip(lines[k]) == lines[k]
  {
    var input := SplitLines(visible);
    var stripped := StripAll(input);
    var lines := CleanLines(visible);
    forall k | 0 <= k < |lines| ensures NoLineBreak(lines[k]) && lines[k] != "" && Strip(lines[k]) == lines[k] {
      var i :| 0 <= i < |stripped| && stripped[i] == lines[k];
      StripKeepsNoLineBreak(input[i]);
      StripIdempotent(input[i]);
    }
  }

  /** Joining non-empty parts gives a non-empty string. */
  lemma JoinNonEmpty(parts: seq<string>)
    requires parts != [] && parts[0] != ""
    ensures Join("\n", parts) != ""
  {
    if |parts| > 1 {
      assert |Join("\n", parts)| >= |parts[0]|;
    }
  }

  // Links

  predicate IsGrowwLink(href: string) {
    StartsWith(href, GrowwPrefix)
  }

  /** The kept links: the Groww links, each once, in first-occurrence order. */
  function GrowwLinks(hrefs: seq<string>): seq<string> {
    Dedup(Filter(hrefs, IsGrowwLink))
  }

  /** The links all start with `https://groww.in/`, are exactly the Groww
      links of the page, hold no duplicates and keep the order in which each
      first occurs among them. */
  lemma GrowwLinksProperties(hrefs: seq<string>)
    ensures var links := GrowwLinks(hrefs);
      (forall k :: 0 <= k < |links| ==> StartsWith(links[k], GrowwPrefix)) &&
      (forall x :: x in links <==> x in hrefs && IsGrowwLink(x)) &&
      NoDuplicates(links) &&
      (forall i, j :: 0 <= i < j < |links| ==>
        FirstIndex(Filter(hrefs, IsGrowwLink), links[i]) < FirstIndex(Filter(hrefs, IsGrowwLink), links[j]))
  {
    var g := Filter(hrefs, IsGrowwLink);
    DedupOrder(g);
    forall x | x in hrefs && IsGrowwLink(x) ensures x in GrowwLinks(hrefs) {
      var k :| 0 <= k < |hrefs| && hrefs[k] == x;
      assert x in g;
      var i :| 0 <= i < |g| && g[i] == x;
    }
  }

  /** The link loop of `extract_text_and_links`: keep a Groww link that is
      not already kept. */
  method ExtractLinks(hrefs: seq<string>) returns (links: seq<string>)
    ensures links == GrowwLinks(hrefs)
  {
    links := [];
    for i := 0 to |hrefs|
      invariant links == GrowwLinks(hrefs[..i])
    {
      var href := hrefs[i];
      assert hrefs[..i + 1][..i] == hrefs[..i];
      if IsGrowwLink(href) && href !in links {
        links := links + [href];
      }
    }
    assert hrefs[..|hrefs|] == hrefs;
  }

  /** `extract_text_and_links`, given the visible text of the page (its text
      with scripts and styles removed, one element per line) and the `href`
      of each of its anchors, in document order. */
  method ExtractTextAndLinks(visible: string, hrefs: seq<string>) returns (text: string, links: seq<string>)
    ensures text == CleanText(visible) && links == GrowwLinks(hrefs)
  {
    text := Join("\n", Filter(StripAll(SplitLines(visible)), NonEmpty));
    links := ExtractLinks(hrefs);
  }

  // Scraping

  /** `_augment_with_dynamic_sections`, given the fund-management snippet
      extracted from the page's HTML. */
  function Augment(page: SchemePage, snippet: string, base: string): (r: string)
    ensures r != base <==> page.scheme == FlexiCapScheme && snippet != "" && !Contains(base, FundManagement)
    ensures r != base ==> r == base + "\n\n" + snippet
  {
    if page.scheme != FlexiCapScheme then base
    else if snippet == "" then base
    else if Contains(base, FundManagement) then base
    else base + "\n\n" + snippet
  }

  /** A snippet that names the fund-management section is added at most once:
      augmenting an augmented text changes nothing. */
  lemma AugmentIdempotent(page: SchemePage, snippet: string, base: string)
    requires Contains(snippet, FundManagement)
    ensures Augment(page, snippet, Augment(page, snippet, base)) == Augment(page, snippet, base)
  {
    var once := Augment(page, snippet, base);
    if once != base {
      var i :| 0 <= i <= |snippet| - |FundManagement| && OccursAt(snippet, FundManagement, i);
      var off := |base| + 2;
      assert once[off + i..off + i + |FundManagement|] == snippet[i..i + |FundManagement|];
      ContainsAt(once, FundManagement, off + i);
    }
  }

  /** What the parser gives for a page's HTML: its visible text, the `href`
      of each anchor, and the text of its fund-management section ("" when
      there is none). */
  datatype HtmlParser = HtmlParser(
    visibleText: string -> string,
    anchors: string -> seq<string>,
    fundSection: string -> string)

  /** The document scraped from a page whose HTML is `html`. */
  function DocumentOf(page: SchemePage, html: string, parser: HtmlParser, lastVerified: string): ScrapedDocument {
    ScrapedDocument(page.scheme, page.category, page.url, html,
                    Augment(page, parser.fundSection(html), CleanText(parser.visibleText(html))),
                    lastVerified, GrowwLinks(parser.anchors(html)))
  }

  /** `scrape_scheme(page)`. */
  function Scrape(page: SchemePage, net: (string, nat) -> Outcome, parser: HtmlParser, lastVerified: string): (r: Result<ScrapedDocument, string>)
    ensures r.Success? <==> Fetch(page.url, DefaultRetries, net).0.Success?
    ensures r.Failure? ==> r.error == Fetch(page.url, DefaultRetries, net).0.error
    ensures r.Success? ==> (r.value.url == page.url && r.value.scheme == page.scheme &&
      r.value.html == Fetch(page.url, DefaultRetries, net).0.value && r.value.lastVerified == lastVerified)
  {
    match Fetch(page.url, DefaultRetries, net).0
    case Success(html) => Success(DocumentOf(page, html, parser, lastVerified))
    case Failure(e) => Failure(e)
  }

  /** `scrape_scheme` as a function of the page. */
  function ScrapeWith(net: (string, nat) -> Outcome, parser: HtmlParser, lastVerified: string): SchemePage -> Result<ScrapedDocument, string> {
    page => Scrape(page, net, parser, lastVerified)
  }

  /** `scrape_all` over `pages`, each page scraped by `scrape`: the documents
      in order, or the first failure. */
  function ScrapeAllOf(pages: seq<SchemePage>, scrape: SchemePage -> Result<ScrapedDocument, string>): (r: Result<seq<ScrapedDocument>, string>)
    ensures r.Success? ==> |r.value| == |pages|
    ensures r.Failure? ==> exists k :: 0 <= k < |pages| && scrape(pages[k]).Failure?
  {
    if pages == [] then Success([]) else
      match ScrapeAllOf(pages[..|pages| - 1], scrape)
      case Failure(e) => Failure(e)
      case Success(docs) =>
        match scrape(pages[|pages| - 1])
        case Failure(e) => Failure(e)
        case Success(d) => Success(docs + [d])
  }

  /** A scraped document carries its page's scheme, category and URL, the
      fetched HTML, the run's date and the page's Groww links. */
  lemma ScrapeFields(page: SchemePage, net: (string, nat) -> Outcome, parser: HtmlParser, lastVerified: string)
    ensures var r := Scrape(page, net, parser, lastVerified);
      var f := Fetch(page.url, DefaultRetries, net).0;
      (r.Success? <==> f.Success?) &&
      (r.Failure? ==> r.error == f.error) &&
      (r.Success? ==> r.value.scheme == page.scheme && r.value.category == page.category &&
                      r.value.url == page.url && r.value.html == f.value &&
                      r.value.lastVerified == lastVerified &&
                      r.value.extraLinks == GrowwLinks(parser.anchors(f.value)))
  {
  }

  /** `scrape_all` succeeds exactly when every page can be scraped, and then
      gives one document per page, in page order. */
  lemma {:induction false} ScrapeAllDocuments(pages: seq<SchemePage>, scrape: SchemePage -> Result<ScrapedDocument, string>)
    ensures var r := ScrapeAllOf(pages, scrape);
      (r.Success? <==> forall k :: 0 <= k < |pages| ==> scrape(pages[k]).Success?) &&
      (r.Success? ==> |r.value| == |pages|) &&
      (r.Success? ==> forall k :: 0 <= k < |pages| ==> r.value[k] == scrape(pages[k]).value)
  {
    if pages != [] {
      var init := pages[..|pages| - 1];
      ScrapeAllDocuments(init, scrape);
      assert forall k :: 0 <= k < |init| ==> init[k] == pages[k];
      if ScrapeAllOf(init, scrape).Failure? {
        var k :| 0 <= k < |init| && !scrape(init[k]).Success?;
        assert !scrape(pages[k]).Success?;
      }
    }
  }

  /** When `scrape_all` fails, it fails with the error of the first page that
      could not be scraped. */
  lemma {:induction false} ScrapeAllFirstFailure(pages: seq<SchemePage>, scrape: SchemePage -> Result<ScrapedDocument, string>)
    requires ScrapeAllOf(pages, scrape).Failure?
    ensures var r := ScrapeAllOf(pages, scrape);
      exists k :: 0 <= k < |pages| && scrape(pages[k]) == Failure(r.error) &&
        (forall j :: 0 <= j < k ==> scrape(pages[j]).Success?)
  {
    var init := pages[..|pages| - 1];
    var r := ScrapeAllOf(pages, scrape);
    assert forall k :: 0 <= k < |init| ==> init[k] == pages[k];
    if ScrapeAllOf(init, scrape).Failure? {
      ScrapeAllFirstFailure(init, scrape);
      var k :| 0 <= k < |init| && scrape(init[k]) == Failure(r.error) &&
        (forall j :: 0 <= j < k ==> scrape(init[j]).Success?);
      assert scrape(pages[k]) == Failure(r.error);
    } else {
      ScrapeAllDocuments(init, scrape);
      assert scrape(pages[|pages| - 1]) == Failure(r.error);
    }
  }

  /** Every document `scrape_all` gives carries its page's scheme, category
      and URL and the run's date. */
  lemma ScrapeAllFields(net: (string, nat) -> Outcome, parser: HtmlParser, lastVerified: string)
    ensures var r := ScrapeAllOf(SchemeUrls, ScrapeWith(net, parser, lastVerified));
      r.Success? ==> (|r.value| == |SchemeUrls| &&
        forall k :: 0 <= k < |SchemeUrls| ==>
          r.value[k].scheme == SchemeUrls[k].scheme && r.value[k].category == SchemeUrls[k].category &&
          r.value[k].url == SchemeUrls[k].url && r.value[k].lastVerified == lastVerified)
  {
    ScrapeAllDocuments(SchemeUrls, ScrapeWith(net, parser, lastVerified));
    forall k | 0 <= k < |SchemeUrls| {
      ScrapeFields(SchemeUrls[k], net, parser, lastVerified);
    }
  }

  /** The scheme list names six pages with pairwise distinct URLs. */
  lemma SchemeUrlsDistinct()
    ensures |SchemeUrls| == 6
    ensures forall i, j :: 0 <= i < j < |SchemeUrls| ==> SchemeUrls[i].url != SchemeUrls[j].url
  {
  }

  /** `scrape_scheme`: fetch with the default retries, extract, augment. */
  method ScrapeScheme(page: SchemePage, net: (string, nat) -> Outcome, parser: HtmlParser, lastVerified: string)
    returns (r: Result<ScrapedDocument, string>)
    ensures r == Scrape(page, net, parser, lastVerified)
  {
    var fetched, _ := FetchHtml(page.url, DefaultRetries, net);
    if fetched.Failure? {
      return Failure(fetched.error);
    }
    var html := fetched.value;
    var text, links := ExtractTextAndLinks(parser.visibleText(html), parser.anchors(html));
    text := Augment(page, parser.fundSection(html), text);
    return Success(ScrapedDocument(page.scheme, page.category, page.url, html, text, lastVerified, links));
  }

  /** `scrape_all`: scrape every page of the scheme list, in order. */
  method ScrapeAll(net: (string, nat) -> Outcome, parser: HtmlParser, lastVerified: string)
    returns (r: Result<seq<ScrapedDocument>, string>)
    ensures r == ScrapeAllOf(SchemeUrls, ScrapeWith(net, parser, lastVerified))
  {
    r := ScrapePages(SchemeUrls, net, parser, lastVerified);
  }

  /** The loop of `scrape_all` over any list of pages. */
  method ScrapePages(pages: seq<SchemePage>, net: (string, nat) -> Outcome, parser: HtmlParser, lastVerified: string)
    returns (r: Result<seq<ScrapedDocument>, string>)
    ensures r == ScrapeAllOf(pages, ScrapeWith(net, parser, lastVerified))
  {
    ghost var scrape := ScrapeWith(net, parser, lastVerified);
    var documents: seq<ScrapedDocument> := [];
    for i := 0 to |pages|
      invariant ScrapeAllOf(pages[..i], scrape) == Success(documents)
    {
      var doc := ScrapeScheme(pages[i], net, parser, lastVerified);
      assert doc == scrape(pages[i]);
      ScrapeAllSnoc(pages, i, scrape, documents);
      if doc.Failure? {
        ScrapeAllFailurePersists(pages, i + 1, scrape);
        return Failure(doc.error);
      }
      documents := documents + [doc.value];
    }
    assert pages[..|pages|] == pages;
    return Success(documents);
  }

  /** Scraping one more page after a successful prefix adds its document or
      fails with its error. */
  lemma ScrapeAllSnoc(pages: seq<SchemePage>, i: nat, scrape: SchemePage -> Result<ScrapedDocument, string>,
                      docs: seq<ScrapedDocument>)
    requires i < |pages| && ScrapeAllOf(pages[..i], scrape) == Success(docs)
    ensures scrape(pages[i]).Failure? ==> ScrapeAllOf(pages[..i + 1], scrape) == Failure(scrape(pages[i]).error)
    ensures scrape(pages[i]).Success? ==> ScrapeAllOf(pages[..i + 1], scrape) == Success(docs + [scrape(pages[i]).value])
  {
    assert pages[..i + 1][..i] == pages[..i];
  }

  /** Once a prefix of the pages fails, every longer prefix fails the same way. */
  lemma {:induction false} ScrapeAllFailurePersists(pages: seq<SchemePage>, n: nat, scrape: SchemePage -> Result<ScrapedDocument, string>)
    requires n <= |pages|
    requires ScrapeAllOf(pages[..n], scrape).Failure?
    ensures ScrapeAllOf(pages, scrape) == ScrapeAllOf(pages[..n], scrape)
    decreases |pages| - n
  {
    if n < |pages| {
      assert pages[..n + 1][..n] == pages[..n];
      ScrapeAllFailurePersists(pages, n + 1, scrape);
    } else {
      assert pages[..n] == pages;
    }
  }
}
