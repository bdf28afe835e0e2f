/** Splitting a scraped page into overlapping passages
    (data-pipeline/src/doc_processing.py). The HTML normalisation done by
    Docling or BeautifulSoup is a parameter `normalize`: what it returns for
    the page's HTML. */
module DocProcessing {
  import opened Wrappers
  import opened Strings
  import opened PipelineModels
  import Lists

  const DefaultChunkSize := 700
  const DefaultOverlap := 100

  function Min(a: int, b: int): int {
    if a <= b then a else b
  }

  /** `min(len(tokens), start + chunk_size)`: where the window from `start` ends. */
  function WindowEnd(n: nat, size: nat, start: nat): nat {
    Min(n, start + size)
  }

  /** `max(0, end - overlap)`: where the next window starts. */
  function NextStart(end: nat, overlap: int): nat {
    if end - overlap < 0 then 0 else end - overlap
  }

  /** The token windows `[start, end)` that the loop of `chunk_text` visits
      when it is at `start`. */
  function Windows(n: nat, size: nat, overlap: int, start: nat): seq<(nat, nat)>
    requires 0 < size && overlap < size
    decreases n - start
  {
    if n <= start then []
    else
      var end := WindowEnd(n, size, start);
      if end == n then [(start, end)]
      else [(start, end)] + Windows(n, size, overlap, NextStart(end, overlap))
  }

  /** The tokens of window `w` (nothing for a window out of range, which the
      loop never makes). */
  function Slice(tokens: seq<string>, w: (nat, nat)): seq<string> {
    if w.0 <= w.1 <= |tokens| then tokens[w.0..w.1] else []
  }

  /** The tokens of each window, joined by single spaces. */
  function Segments(tokens: seq<string>, ws: seq<(nat, nat)>): seq<string> {
    seq(|ws|, i requires 0 <= i < |ws| => Join(" ", Slice(tokens, ws[i])))
  }

  /** The chunks of a token sequence. */
  function Chunks(tokens: seq<string>, size: nat, overlap: int): seq<string>
    requires 0 < size && overlap < size
  {
    Segments(tokens, Windows(|tokens|, size, overlap, 0))
  }

  /** The tokens that make up each chunk. */
  function Parts(tokens: seq<string>, size: nat, overlap: int): seq<seq<string>>
    requires 0 < size && overlap < size
  {
    var ws := Windows(|tokens|, size, overlap, 0);
    seq(|ws|, i requires 0 <= i < |ws| => Slice(tokens, ws[i]))
  }

  /** What `chunk_text(text, chunk_size=size, overlap=overlap)` returns. */
  function ChunkTexts(text: string, size: nat, overlap: int): seq<string>
    requires 0 < size && overlap < size
  {
    Chunks(Split(text), size, overlap)
  }

  /** The windows from `start` lie between `start` and `n`, hold between one
      and `size` tokens, and the first begins at `start`; there are none
      exactly when `start` is past the last token. */
  lemma {:induction false} WindowsInBounds(n: nat, size: nat, overlap: int, start: nat)
    requires 0 < size && overlap < size
    ensures var ws := Windows(n, size, overlap, start);
      (|ws| == 0 <==> n <= start) &&
      (|ws| > 0 ==> ws[0].0 == start) &&
      forall i :: 0 <= i < |ws| ==> start <= ws[i].0 < ws[i].1 <= n && ws[i].1 - ws[i].0 <= size
    decreases n - start
  {
    if start < n {
      var end := WindowEnd(n, size, start);
      if end < n {
        var next := NextStart(end, overlap);
        WindowsInBounds(n, size, overlap, next);
        var ws := Windows(n, size, overlap, start);
        var rest := Windows(n, size, overlap, next);
        assert ws == [(start, end)] + rest;
        forall i | 0 <= i < |ws| ensures start <= ws[i].0 < ws[i].1 <= n && ws[i].1 - ws[i].0 <= size {
          if i > 0 {
            assert ws[i] == rest[i - 1];
          }
        }
      }
    }
  }

  /** One step of the loop: the windows from `start` are the window at
      `start`, then the windows from the next start unless it was the last. */
  lemma WindowsUnfold(n: nat, size: nat, overlap: int, start: nat)
    requires 0 < size && overlap < size && start < n
    ensures var end := WindowEnd(n, size, start);
      Windows(n, size, overlap, start) ==
        [(start, end)] + if end == n then [] else Windows(n, size, overlap, NextStart(end, overlap))
  {
  }

  lemma SegmentsCons(tokens: seq<string>, w: (nat, nat), ws: seq<(nat, nat)>)
    ensures Segments(tokens, [w] + ws) == [Join(" ", Slice(tokens, w))] + Segments(tokens, ws)
  {
  }

  /** The loop of `chunk_text` over the tokens: a window of `chunk_size`
      tokens that steps back by `overlap` tokens, stopping once a window
      reaches the last token. */
  method ChunkTokens(tokens: seq<string>, chunkSize: nat, overlap: int) returns (chunks: seq<string>)
    requires 0 < chunkSize && overlap < chunkSize
    ensures chunks == Chunks(tokens, chunkSize, overlap)
  {
    chunks := [];
    var start: nat := 0;
    while start < |tokens|
      invariant chunks + Segments(tokens, Windows(|tokens|, chunkSize, overlap, start)) == Chunks(tokens, chunkSize, overlap)
      decreases |tokens| - start
    {
      var end := WindowEnd(|tokens|, chunkSize, start);
      WindowsUnfold(|tokens|, chunkSize, overlap, start);
      var rest := if end == |tokens| then [] else Windows(|tokens|, chunkSize, overlap, NextStart(end, overlap));
      SegmentsCons(tokens, (start, end), rest);
      assert Slice(tokens, (start, end)) == tokens[start..end];
      chunks := chunks + [Join(" ", tokens[start..end])];
      if end == |tokens| {
        break;
      }
      start := NextStart(end, overlap);
    }
  }

  /** `chunk_text`: split the text into tokens, then run the window loop. */
  method ChunkText(text: string, chunkSize: nat, overlap: int) returns (chunks: seq<string>)
    requires 0 < chunkSize && overlap < chunkSize
    ensures chunks == ChunkTexts(text, chunkSize, overlap)
  {
    var tokens := Split(text);
    chunks := ChunkTokens(tokens, chunkSize, overlap);
  }

  /** Every window but the last is full, and the next one starts `overlap`
      tokens before it ends. */
  lemma {:induction false} WindowsStep(n: nat, size: nat, overlap: int, start: nat)
    requires 0 < size && overlap < size
    ensures var ws := Windows(n, size, overlap, start);
      forall i :: 0 <= i < |ws| - 1 ==> ws[i].0 + size == ws[i].1 && ws[i + 1].0 + overlap == ws[i].1
    decreases n - start
  {
    var ws := Windows(n, size, overlap, start);
    if start < n {
      var end := WindowEnd(n, size, start);
      if end < n {
        var next := NextStart(end, overlap);
        var rest := Windows(n, size, overlap, next);
        WindowsStep(n, size, overlap, next);
        WindowsInBounds(n, size, overlap, next);
        assert ws == [(start, end)] + rest;
        forall i | 0 <= i < |ws| - 1
          ensures ws[i].0 + size == ws[i].1 && ws[i + 1].0 + overlap == ws[i].1
        {
          if i > 0 {
            assert ws[i] == rest[i - 1] && ws[i + 1] == rest[i];
          } else {
            assert ws[1] == rest[0];
          }
        }
      }
    }
  }

  /** With a non-negative overlap the last window ends at the last token. */
  lemma {:induction false} WindowsReachEnd(n: nat, size: nat, overlap: int, start: nat)
    requires 0 <= overlap < size && start < n
    ensures var ws := Windows(n, size, overlap, start); |ws| > 0 && ws[|ws| - 1].1 == n
    decreases n - start
  {
    var end := WindowEnd(n, size, start);
    if end < n {
      var next := NextStart(end, overlap);
      WindowsReachEnd(n, size, overlap, next);
      var rest := Windows(n, size, overlap, next);
      assert Windows(n, size, overlap, start) == [(start, end)] + rest;
    }
  }

  /** With a non-negative overlap every token from `start` on lies in some window. */
  lemma {:induction false} WindowsCover(n: nat, size: nat, overlap: int, start: nat, k: nat)
    requires 0 <= overlap < size && start <= k < n
    ensures var ws := Windows(n, size, overlap, start);
      exists i :: 0 <= i < |ws| && ws[i].0 <= k < ws[i].1
    decreases n - start
  {
    var ws := Windows(n, size, overlap, start);
    var end := WindowEnd(n, size, start);
    WindowsUnfold(n, size, overlap, start);
    if k < end {
      assert ws[0] == (start, end);
    } else {
      var next := NextStart(end, overlap);
      WindowsCover(n, size, overlap, next, k);
      var rest := Windows(n, size, overlap, next);
      assert ws == [(start, end)] + rest;
      var i :| 0 <= i < |rest| && rest[i].0 <= k < rest[i].1;
      assert ws[i + 1] == rest[i];
    }
  }

  /** With `overlap >= chunk_size` the loop never advances: once a window does
      not reach the last token, the next one starts no later than it did. */
  lemma OverlapTooLargeStalls(n: nat, size: nat, overlap: int, start: nat)
    requires 0 < size <= overlap && WindowEnd(n, size, start) < n
    ensures NextStart(WindowEnd(n, size, start), overlap) <= start
    ensures WindowEnd(n, size, NextStart(WindowEnd(n, size, start), overlap)) < n
  {
  }

  predicate AllTokens(tokens: seq<string>) {
    forall k :: 0 <= k < |tokens| ==> IsToken(tokens[k])
  }

  /** The tokens of a split are tokens. */
  lemma SplitGivesTokens(text: string)
    ensures AllTokens(Split(text))
  {
  }

  /** Part `i` is window `i` of the tokens: between one and `size` tokens. */
  lemma PartAt(tokens: seq<string>, size: nat, overlap: int, i: nat)
    requires 0 < size && overlap < size
    requires i < |Windows(|tokens|, size, overlap, 0)|
    ensures var ws := Windows(|tokens|, size, overlap, 0);
      var parts := Parts(tokens, size, overlap);
      |parts| == |ws| == |Chunks(tokens, size, overlap)| &&
      ws[i].0 < ws[i].1 <= |tokens| && parts[i] == tokens[ws[i].0..ws[i].1] &&
      0 < |parts[i]| <= size && Chunks(tokens, size, overlap)[i] == Join(" ", parts[i])
  {
    WindowsInBounds(|tokens|, size, overlap, 0);
  }

  /** Splitting chunk `i` again gives exactly its part. */
  lemma ChunkSplitsToPart(tokens: seq<string>, size: nat, overlap: int, i: nat)
    requires 0 < size && overlap < size && AllTokens(tokens)
    requires i < |Chunks(tokens, size, overlap)|
    ensures Split(Chunks(tokens, size, overlap)[i]) == Parts(tokens, size, overlap)[i]
  {
    var ws := Windows(|tokens|, size, overlap, 0);
    PartAt(tokens, size, overlap, i);
    var part := Parts(tokens, size, overlap)[i];
    assert AllTokens(part) by {
      forall k | 0 <= k < |part| ensures IsToken(part[k]) {
        assert part[k] == tokens[ws[i].0 + k];
      }
    }
    SplitJoinRoundTrip(part);
  }

  /** The chunks are the parts: splitting chunk `i` again gives exactly
      window `i` of the tokens, between one and `size` of them. */
  lemma ChunksAreWindows(text: string, size: nat, overlap: int)
    requires 0 < size && overlap < size
    ensures var tokens := Split(text);
      var ws := Windows(|tokens|, size, overlap, 0);
      var cs := ChunkTexts(text, size, overlap);
      |cs| == |ws| &&
      forall i :: 0 <= i < |cs| ==>
        ws[i].0 < ws[i].1 <= |tokens| && Split(cs[i]) == tokens[ws[i].0..ws[i].1] && 0 < |Split(cs[i])| <= size
  {
    var tokens := Split(text);
    SplitGivesTokens(text);
    var ws := Windows(|tokens|, size, overlap, 0);
    var cs := Chunks(tokens, size, overlap);
    forall i | 0 <= i < |cs|
      ensures ws[i].0 < ws[i].1 <= |tokens| && Split(cs[i]) == tokens[ws[i].0..ws[i].1] && 0 < |Split(cs[i])| <= size
    {
      PartAt(tokens, size, overlap, i);
      ChunkSplitsToPart(tokens, size, overlap, i);
    }
  }

  /** A text without tokens gives no chunks, and a text with tokens gives at least one. */
  lemma NoTokensNoChunks(text: string, size: nat, overlap: int)
    requires 0 < size && overlap < size
    ensures ChunkTexts(text, size, overlap) == [] <==> Split(text) == []
  {
    var tokens := Split(text);
    assert |Chunks(tokens, size, overlap)| == |Windows(|tokens|, size, overlap, 0)|;
  }

  /** A text of at most `size` tokens gives one chunk: its tokens joined by
      single spaces. */
  lemma ShortTextOneChunk(text: string, size: nat, overlap: int)
    requires 0 < size && overlap < size && 0 < |Split(text)| <= size
    ensures ChunkTexts(text, size, overlap) == [Join(" ", Split(text))]
  {
    var tokens := Split(text);
    assert Windows(|tokens|, size, overlap, 0) == [(0, |tokens|)];
    assert tokens[0..|tokens|] == tokens;
    assert Chunks(tokens, size, overlap)[0] == Join(" ", tokens);
  }

  /** Window `i` is full and ends `overlap` tokens after window `i + 1`
      begins, which holds at least `overlap` tokens. */
  lemma ConsecutiveWindows(n: nat, size: nat, overlap: int, i: nat)
    requires 0 <= overlap < size && i + 1 < |Windows(n, size, overlap, 0)|
    ensures var ws := Windows(n, size, overlap, 0);
      ws[i].0 + size == ws[i].1 && ws[i + 1].0 + overlap == ws[i].1 && ws[i + 1].0 + overlap <= ws[i + 1].1
  {
    var ws := Windows(n, size, overlap, 0);
    WindowsStep(n, size, overlap, 0);
    WindowsReachEnd(n, size, overlap, 0);
    WindowsInBounds(n, size, overlap, 0);
    if i + 1 < |ws| - 1 {
      assert ws[i + 1].0 + size == ws[i + 1].1;
    } else {
      assert ws[i + 1].1 == n;
    }
  }

  /** Part `a` holds `size` tokens and part `b` begins with the last
      `overlap` of them. */
  predicate Chained(a: seq<string>, b: seq<string>, size: nat, overlap: nat) {
    |a| == size && overlap <= size && |b| >= overlap && b[..overlap] == a[size - overlap..]
  }

  /** With a non-negative overlap part `i + 1` begins with the last `overlap`
      tokens of part `i`, which holds `size` tokens. */
  lemma ConsecutiveParts(tokens: seq<string>, size: nat, overlap: nat, i: nat)
    requires overlap < size
    requires i + 1 < |Windows(|tokens|, size, overlap, 0)|
    ensures var parts := Parts(tokens, size, overlap); Chained(parts[i], parts[i + 1], size, overlap)
  {
    var ws := Windows(|tokens|, size, overlap, 0);
    PartAt(tokens, size, overlap, i);
    PartAt(tokens, size, overlap, i + 1);
    ConsecutiveWindows(|tokens|, size, overlap, i);
    SlicesChained(tokens, ws[i].0, ws[i + 1].0, ws[i + 1].1, size, overlap);
  }

  /** A full slice and a slice that starts `overlap` tokens before its end
      are chained. */
  lemma SlicesChained(tokens: seq<string>, a: nat, b: nat, e: nat, size: nat, overlap: nat)
    requires overlap <= size && a + size == b + overlap && b + overlap <= e <= |tokens|
    ensures Chained(tokens[a..a + size], tokens[b..e], size, overlap)
  {
    Lists.SlicePrefix(tokens, b, e, overlap);
    Lists.SliceSuffix(tokens, a, a + size, size - overlap);
  }

  /** With a non-negative overlap the first part starts at the first token,
      the last part ends at the last token, and each part but the last is
      full and ends with the first `overlap` tokens of the next. */
  lemma PartsOverlap(tokens: seq<string>, size: nat, overlap: nat)
    requires overlap < size && tokens != []
    ensures var parts := Parts(tokens, size, overlap);
      |parts| > 0 &&
      |parts[0]| <= |tokens| && tokens[..|parts[0]|] == parts[0] &&
      |parts[|parts| - 1]| <= |tokens| && tokens[|tokens| - |parts[|parts| - 1]|..] == parts[|parts| - 1] &&
      forall i, j :: 0 <= i && j == i + 1 < |parts| ==> Chained(parts[i], parts[j], size, overlap)
  {
    var n := |tokens|;
    var ws := Windows(n, size, overlap, 0);
    var parts := Parts(tokens, size, overlap);
    WindowsReachEnd(n, size, overlap, 0);
    PartAt(tokens, size, overlap, 0);
    PartAt(tokens, size, overlap, |ws| - 1);
    forall i, j | 0 <= i && j == i + 1 < |parts| ensures Chained(parts[i], parts[j], size, overlap) {
      ConsecutiveParts(tokens, size, overlap, i);
    }
  }

  /** With a non-negative overlap every token lies in some part, at its own
      position. */
  lemma PartsCover(tokens: seq<string>, size: nat, overlap: nat, k: nat)
    requires overlap < size && k < |tokens|
    ensures var ws := Windows(|tokens|, size, overlap, 0);
      var parts := Parts(tokens, size, overlap);
      exists i :: 0 <= i < |parts| && ws[i].0 <= k < ws[i].0 + |parts[i]| && parts[i][k - ws[i].0] == tokens[k]
  {
    var ws := Windows(|tokens|, size, overlap, 0);
    WindowsCover(|tokens|, size, overlap, 0, k);
    var i :| 0 <= i < |ws| && ws[i].0 <= k < ws[i].1;
    PartAt(tokens, size, overlap, i);
    var part := Parts(tokens, size, overlap)[i];
    assert part[k - ws[i].0] == tokens[k];
  }

  /** Chunks come out trimmed: the `strip` applied by `build_chunks` changes nothing. */
  lemma ChunksAreTrimmed(text: string, size: nat, overlap: int)
    requires 0 < size && overlap < size
    ensures var cs := ChunkTexts(text, size, overlap);
      forall i :: 0 <= i < |cs| ==> Strip(cs[i]) == cs[i]
  {
    var tokens := Split(text);
    SplitGivesTokens(text);
    var cs := Chunks(tokens, size, overlap);
    forall i | 0 <= i < |cs| ensures Strip(cs[i]) == cs[i] {
      ChunkTrimmed(tokens, size, overlap, i);
    }
  }

  lemma ChunkTrimmed(tokens: seq<string>, size: nat, overlap: int, i: nat)
    requires 0 < size && overlap < size && AllTokens(tokens)
    requires i < |Chunks(tokens, size, overlap)|
    ensures Strip(Chunks(tokens, size, overlap)[i]) == Chunks(tokens, size, overlap)[i]
  {
    var ws := Windows(|tokens|, size, overlap, 0);
    PartAt(tokens, size, overlap, i);
    var part := tokens[ws[i].0..ws[i].1];
    var c := Chunks(tokens, size, overlap)[i];
    forall k | 0 <= k < |part|
      ensures part[k] != [] && !IsSpace(part[k][0]) && !IsSpace(part[k][|part[k]| - 1])
    {
      assert part[k] == tokens[ws[i].0 + k];
    }
    JoinOfWordsIsTrimmed(" ", part);
    StripOfTrimmed(c);
  }

  /** The text that gets chunked: the normalised HTML, or the scraped text
      when normalisation leaves nothing but white space. */
  function SourceText(doc: ScrapedDocument, normalize: string -> string): (t: string)
    ensures Strip(normalize(doc.html)) == "" ==> t == doc.text
    ensures Strip(normalize(doc.html)) != "" ==> t == normalize(doc.html)
  {
    var normalized := normalize(doc.html);
    if Strip(normalized) == "" then doc.text else normalized
  }

  function SectionName(idx: nat): string {
    "Section " + NatToString(idx)
  }

  function ChunkIdOf(url: string, idx: nat): string {
    url + "#section-" + NatToString(idx)
  }

  /** The chunk built from the `idx`-th segment (counting from 1). */
  function ChunkAt(doc: ScrapedDocument, idx: nat, segment: string): Chunk {
    Chunk(doc.scheme, doc.category, doc.url, SectionName(idx), Strip(segment),
          doc.lastVerified, map["position" := NatToString(idx)], Some(ChunkIdOf(doc.url, idx)))
  }

  /** The chunks of a document for the given segments, numbered from 1. */
  function ChunksOf(doc: ScrapedDocument, segments: seq<string>): seq<Chunk> {
    seq(|segments|, i requires 0 <= i < |segments| => ChunkAt(doc, i + 1, segments[i]))
  }

  /** The position a chunk id names can be read back from it. */
  lemma ChunkIdNamesPosition(url: string, idx: nat)
    ensures var id := ChunkIdOf(url, idx);
      |url| + 9 <= |id| && id[..|url|] == url &&
      (forall k :: |url| + 9 <= k < |id| ==> '0' <= id[k] <= '9') &&
      ParseNat(id[|url| + 9..]) == idx
  {
    var id := ChunkIdOf(url, idx);
    assert id[|url| + 9..] == NatToString(idx);
    NatToStringRoundTrip(idx);
  }

  /** Equal chunk ids name equal positions: different positions give
      different chunk ids. */
  lemma ChunkIdsDiffer(url: string, i: nat, j: nat)
    ensures ChunkIdOf(url, i) == ChunkIdOf(url, j) ==> i == j
  {
    ChunkIdNamesPosition(url, i);
    ChunkIdNamesPosition(url, j);
  }

  /** Chunk `i` of a document (counting from 0) carries position `i + 1`:
      section "Section i+1", id `url#section-i+1` and metadata
      `{"position": "i+1"}`, with the document's scheme, category, URL and
      date, and the stripped segment. */
  lemma ChunksOfDocument(doc: ScrapedDocument, segments: seq<string>)
    ensures var cs := ChunksOf(doc, segments);
      |cs| == |segments| &&
      forall i :: 0 <= i < |cs| ==>
        cs[i].scheme == doc.scheme && cs[i].category == doc.category && cs[i].url == doc.url &&
        cs[i].lastVerified == doc.lastVerified && cs[i].content == Strip(segments[i]) &&
        cs[i].section == "Section " + NatToString(i + 1) &&
        cs[i].chunkId == Some(doc.url + "#section-" + NatToString(i + 1)) &&
        cs[i].metadata == map["position" := NatToString(i + 1)]
  {
  }

  /** Chunks at two different positions of a document have different ids. */
  lemma ChunkIdsOfDiffer(doc: ScrapedDocument, segments: seq<string>, i: nat, j: nat)
    requires i < j < |segments|
    ensures ChunksOf(doc, segments)[i].chunkId != ChunksOf(doc, segments)[j].chunkId
  {
    ChunkPosition(doc, segments, i);
    ChunkPosition(doc, segments, j);
  }

  /** The position a chunk id names after the document's URL, or -1 when it
      names none. */
  function PositionIn(url: string, id: Option<string>): int {
    if id.Some? && |url| + 9 <= |id.value| && forall k :: |url| + 9 <= k < |id.value| ==> '0' <= id.value[k] <= '9'
    then ParseNat(id.value[|url| + 9..]) else -1
  }

  /** Chunk `i` (counting from 0) names position `i + 1` in its id. */
  lemma ChunkPosition(doc: ScrapedDocument, segments: seq<string>, i: nat)
    requires i < |segments|
    ensures PositionIn(doc.url, ChunksOf(doc, segments)[i].chunkId) == i + 1
  {
    assert ChunksOf(doc, segments)[i].chunkId == Some(ChunkIdOf(doc.url, i + 1));
    ChunkIdNamesPosition(doc.url, i + 1);
  }

  /** The chunk ids of a document are pairwise distinct. */
  lemma ChunkIdsDistinct(doc: ScrapedDocument, segments: seq<string>)
    ensures var cs := ChunksOf(doc, segments);
      forall i, j :: 0 <= i < j < |cs| ==> cs[i].chunkId != cs[j].chunkId
  {
    forall i, j | 0 <= i < j < |segments|
      ensures ChunksOf(doc, segments)[i].chunkId != ChunksOf(doc, segments)[j].chunkId
    {
      ChunkIdsOfDiffer(doc, segments, i, j);
    }
  }

  /** Numbering one more segment appends one chunk. */
  lemma ChunksOfSnoc(doc: ScrapedDocument, segments: seq<string>, idx: nat)
    requires idx < |segments|
    ensures ChunksOf(doc, segments[..idx + 1]) == ChunksOf(doc, segments[..idx]) + [ChunkAt(doc, idx + 1, segments[idx])]
  {
    var a := ChunksOf(doc, segments[..idx + 1]);
    var b := ChunksOf(doc, segments[..idx]) + [ChunkAt(doc, idx + 1, segments[idx])];
    assert |a| == |b|;
    forall k | 0 <= k < |a| ensures a[k] == b[k] {
      assert segments[..idx + 1][k] == segments[k];
      if k < idx {
        assert segments[..idx][k] == segments[k];
        assert b[k] == ChunksOf(doc, segments[..idx])[k];
      }
    }
  }

  /** `build_chunks`: chunk the source text with the default overlap and
      number the chunks from 1. */
  method BuildChunks(doc: ScrapedDocument, normalize: string -> string, chunkSize: nat)
    returns (chunks: seq<Chunk>)
    requires DefaultOverlap < chunkSize
    ensures chunks == ChunksOf(doc, ChunkTexts(SourceText(doc, normalize), chunkSize, DefaultOverlap))
  {
    var normalized := normalize(doc.html);
    if Strip(normalized) == "" {
      normalized := doc.text;
    }
    var segments := ChunkText(normalized, chunkSize, DefaultOverlap);
    chunks := [];
    for idx := 0 to |segments|
      invariant chunks == ChunksOf(doc, segments[..idx])
    {
      ChunksOfSnoc(doc, segments, idx);
      chunks := chunks + [ChunkAt(doc, idx + 1, segments[idx])];
    }
    assert segments[..|segments|] == segments;
  }

  /** Every built chunk holds its segment as it is: the segments are already
      stripped. */
  lemma BuiltContentIsSegment(doc: ScrapedDocument, normalize: string -> string, chunkSize: nat)
    requires DefaultOverlap < chunkSize
    ensures var segments := ChunkTexts(SourceText(doc, normalize), chunkSize, DefaultOverlap);
      var cs := ChunksOf(doc, segments);
      forall i :: 0 <= i < |cs| ==> cs[i].content == segments[i]
  {
    ChunksAreTrimmed(SourceText(doc, normalize), chunkSize, DefaultOverlap);
  }
}
