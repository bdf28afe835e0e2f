# Mutual Fund FAQ Chatbot, modelled in Dafny

This project models the logic of a facts-only question-answering assistant for HDFC mutual fund schemes. The assistant has three parts.

- **Backend.** It answers a question in several steps:
  - It refuses advisory questions with a fixed rule-based guard.
  - Otherwise it embeds the question and retrieves the closest chunks. Retrieval queries a vector index and joins the matches with chunk documents from a document store.
  - It asks a chat model for a grounded answer, picks one citation, and returns a cleaned `rag` answer.
  - When nothing is retrieved it returns a fixed `no_result` answer.
- **Ingestion pipeline.** It builds the index and the store:
  - It scrapes the scheme pages with retries. From each page it keeps the cleaned visible text and the Groww links.
  - It cuts each page into overlapping token windows ("chunks") with positional ids.
  - It embeds the chunks in batches.
  - It upserts the vectors into the vector index and the documents and chunks into the document store.
- **Web page.** It orders an answer's citations, decides when the submit button is disabled, and picks the heading.

The hosted services (chat and embedding models, vector index, document store, HTTP) and the HTML parsers become parameters:

- function-typed fields or arguments stand for what a service answers;
- the contents of a store are explicit state;
- ghost counters record the calls made.

Each source module is one Dafny module, in a file of the same name:

- `models.dfy`
- `advice_guard.dfy`
- `citation.dfy`
- `llm.dfy`
- `retriever.dfy`
- `query_service.dfy`
- `pipeline_models.dfy`
- `doc_processing.dfy`
- `embedding.dfy`
- `pinecone_loader.dfy`
- `storage.dfy`
- `scraper.dfy`
- `app.dfy`

`wrappers.dfy`, `strings.dfy` and `lists.dfy` hold the shared helpers. These are Python-style strip, split and join, substring search, decimal numerals, and list filter and dedup.

Code that changes state step by step is written as classes and methods with loops. Pure code is written as functions. Examples of each:

- Stateful classes:
  - the retriever, which overwrites each fetched document's score in place;
  - the embedding module, with its batch buffer and cached client;
  - the Pinecone loader and the Mongo store, whose contents the upserts change.
- Pure code:
  - the citation selector;
  - the marker step;
  - `sortCitations`.

Every method is proved equal to a specification function, and the properties are proved about those functions.

## Model

| member | source | states |
|---|---|---|
| Models.ValidateRequest | backend/src/models.py:16-17 | A request is accepted exactly when its query has 3 to 500 characters. An accepted request carries the query unchanged. |
| Models.PaddedQueryPassesValidation | backend/src/models.py:17 | The length is checked before stripping. Two spaces plus one visible character pass validation, yet strip to fewer than 3 characters. |
| AdviceGuard.Default | backend/src/services/advice_guard.py:9-29 | The default guard holds the nine advisory patterns, all compiled case-insensitively. |
| AdviceGuard.Classify | backend/src/services/advice_guard.py:31-36 | Returns true exactly when some pattern's search succeeds on the stripped question. With no patterns it returns false. |
| AdviceGuard.EndsIgnoreCase | backend/src/services/advice_guard.py:28 | Under IGNORECASE a pattern's match ends are the same on a text and on its lower-cased form. |
| AdviceGuard.SearchIgnoresCase | backend/src/services/advice_guard.py:28 | A case-insensitive search succeeds on a text exactly when it succeeds on the lower-cased text. |
| AdviceGuard.ClassifyIgnoresCase | backend/src/services/advice_guard.py:28-36 | With case-insensitive patterns, the classification does not depend on letter case. |
| AdviceGuard.ClassifyIgnoresOrder | backend/src/services/advice_guard.py:33-36 | The outcome depends only on which patterns there are, not on their order or repetition. |
| AdviceGuard.InvestIsAdvisory | backend/src/services/advice_guard.py:17 | Any question whose lower-cased text contains "invest" (so also "investment" and "investing") is advisory under the default patterns. |
| AdviceGuard.ShouldIInvestIsAdvisory | backend/tests/test_query_service.py:36-41 | "Should I invest in this fund?" is classified as advisory. |
| CitationBuilder.BuildCitation | backend/src/services/citation.py:11-20 | Fails with "Chunk metadata missing URL" exactly when the URL is missing or empty. Otherwise the URL is kept unchanged, and the text is the scheme or "HDFC Mutual Fund" when the key is absent. The date read back from `last_verified` is the chunk's date, or today's when that is missing or empty. |
| CitationBuilder.CitationShowsDate | backend/src/services/citation.py:15-19 | The formatted `last_verified` contains the source date. |
| Llm.PromptCarriesInputs | backend/src/services/llm.py:39-40 | The user prompt contains the question and every context string verbatim. |
| Llm.WithMarker | backend/src/services/llm.py:50-52 | The result always contains `[CITATION]`. It is the stripped completion when that already holds the marker, and otherwise the stripped completion + " [CITATION]". |
| Llm.WithMarkerIdempotent | backend/src/services/llm.py:50-52 | For a non-blank completion, applying the marker step twice gives the same text as once. |
| Llm.BlankCompletionNotIdempotent | backend/src/services/llm.py:50-52 | A blank completion becomes " [CITATION]", then "[CITATION]", so idempotence needs a non-blank completion. |
| Llm.OpenAIClient.Connect | backend/src/services/llm.py:26-32 | Fails with "OPENAI_API_KEY is required" exactly when the key is empty. Otherwise it gives a fresh client that has made no requests. |
| Llm.OpenAIClient.Embed | backend/src/services/llm.py:34-36 | Returns the embedder's vector and records exactly one embedding request. |
| Llm.OpenAIClient.Answer | backend/src/services/llm.py:38-53 | Sends exactly one prompt, the assembled user prompt. Returns the marker step applied to the chat completion, which contains the marker. |
| Retriever.PositiveIds | backend/src/services/retriever.py:40 | The requested ids are exactly the ids of matches with score > 0, where a missing score counts as 0. There are no more of them than matches. |
| Retriever.KeyMap | backend/src/services/retriever.py:42 | Every fetched document is in the map under its own `chunk_id`, and the map holds only fetched documents. |
| Retriever.KeyMapLastWins | backend/src/services/retriever.py:42 | Among fetched documents that share a `chunk_id`, the last one is in the map. |
| Retriever.JoinFrom | backend/src/services/retriever.py:43-49 | The join has at most one entry per match. Each entry is the mapped document carrying the score of the last match with its id. |
| Retriever.JoinFollowsMatches | backend/src/services/retriever.py:43-49 | The joined ids are the match ids found in the map, in match order, with repetitions. |
| Retriever.RetrievedOrder | backend/src/services/retriever.py:39-49 | The output of `query` follows the index's match order. |
| Retriever.RetrievedWasFetched | backend/src/services/retriever.py:40-49 | Every returned document is a stored record (apart from its score) whose id was among the positive matches' ids. |
| Retriever.LastScoreOfLast | backend/src/services/retriever.py:48 | A document ends with the score of the last match carrying its id. |
| Retriever.NonPositiveNotReturned | backend/src/services/retriever.py:40-49 | An id none of whose matches has a positive score is never returned. |
| Retriever.JoinViews | backend/src/services/retriever.py:43-49 | Once the scores are written, the joined objects show exactly the join computed on values. |
| Retriever.RetrieverService.Connect | backend/src/services/retriever.py:17-24 | Fails with "PINECONE_API_KEY is required" exactly when the key is empty. Otherwise it gives a fresh service that has made no calls. |
| Retriever.RetrieverService.FetchChunks | backend/src/services/retriever.py:29-33 | Returns fresh documents for exactly the stored records whose `chunk_id` is listed, in stored order. An empty id list returns nothing and makes no store call. |
| Retriever.RetrieverService.Query | backend/src/services/retriever.py:35-51 | An empty embedding returns nothing without touching the index. Otherwise one index call is made, and the documents show the join of the positive matches. Entries with the same id are one object. |
| Retriever.RetrieverService.JoinScores | backend/src/services/retriever.py:42-49 | The join loop appends the mapped document of each match in order. It overwrites that document's score in place, giving the value join with the last match's score. |
| QueryOrchestrator.AdviceResponse | backend/src/services/query_service.py:30-39 | The refusal has method `advice_guard`, is not factual, cites only the refusal link, and its text contains "provide investment". |
| QueryOrchestrator.NoResultResponse | backend/src/services/query_service.py:41-48 | The fallback has method `no_result`, cites only `https://groww.in/mutual-funds`, ends in that URL in brackets, and says it "couldn’t find" the fact. |
| QueryOrchestrator.ContextsOf | backend/src/services/query_service.py:60-63 | At most three contexts, one per leading passage, in order. |
| QueryOrchestrator.ContextShape | backend/src/services/query_service.py:62-63 | A context is its label + ": " + the content, or "" when the content is missing. The label is "Section" exactly when the section is missing or empty (or is itself "Section"). |
| QueryOrchestrator.BuildContexts | backend/src/services/query_service.py:60-63 | The context loop yields exactly the contexts of the first three passages. |
| QueryOrchestrator.BuildAll | backend/src/services/query_service.py:66 | Citation building over all matches succeeds exactly when every match has a URL, and then yields one citation per match, in order. |
| QueryOrchestrator.FirstHit | backend/src/services/query_service.py:87-95 | Gives the first passage whose lower-cased scheme (or section) is non-empty and occurs in the lower-cased question, or none when there is no such passage. |
| QueryOrchestrator.SelectBest | backend/src/services/query_service.py:84-97 | Picks the citation of the first scheme hit. Failing that, the first section hit. Failing both, the first citation. The result is always one of the citations. |
| QueryOrchestrator.SingleReplaceLeavesMarker | backend/src/services/query_service.py:69 | The single replace as written turns "[CITA[CITATION]TION]" into "[CITATION]", so a marker survives. |
| QueryOrchestrator.SplitMarkerPassesLlm | backend/src/services/llm.py:51-52 | That completion passes the LLM marker step unchanged, so it can reach the cleanup. |
| QueryOrchestrator.RemoveMarkers | backend/src/services/query_service.py:69 | Repeated removal leaves no marker and never lengthens the text. |
| QueryOrchestrator.CleanAnswer | backend/src/services/query_service.py:69 | The cleaned answer holds no `[CITATION]` and has no surrounding white space. |
| QueryOrchestrator.CleanAnswerAgrees | backend/src/services/query_service.py:69 | Wherever one replace already removes every marker, the cleanup equals the source's. |
| QueryOrchestrator.RagAnswer | backend/src/services/query_service.py:65-77 | Fails exactly when some retrieved match lacks a URL. Otherwise the answer has method `rag` and is factual. Its text is the single-replace cleanup the source performs, with no surrounding white space. That text is the marker-free corrected cleanup whenever one replace leaves no marker. The only citation is the URL of the citation `_select_best_citation` picks, and `last_updated` is that citation's date. The citation is the URL of a retrieved match. |
| QueryOrchestrator.DefaultGuardRefusesInvestQuestion | backend/src/services/query_service.py:51-53 | With the default guard, "Should I invest in this fund?" yields the advice refusal, whatever the collaborators would answer. |
| QueryOrchestrator.QueryService.constructor | backend/src/services/query_service.py:18-28 | Without a guard, the default guard is used. |
| QueryOrchestrator.Outcome | backend/src/services/query_service.py:50-77 | An advisory question gets the refusal. A failure is the missing-URL error of a non-advisory question. Every answer has one citation and no surrounding white space, and is factual exactly when the question is not advisory. |
| QueryOrchestrator.RetrievedOutcome | backend/src/services/query_service.py:55-77 | For a question the guard lets through, the answer is the `no_result` fallback exactly when retrieval is empty. Otherwise it is the `rag` answer, which is factual with one citation, or the missing-URL error. |
| QueryOrchestrator.QueryService.Handle | backend/src/services/query_service.py:50-77 | The result is the outcome for the stripped question, cleaned by the source's single replace. An advisory question reaches neither the embedder, the index, the store nor the chat model. Otherwise exactly the stripped question is embedded. The index is queried once unless the embedding is empty. `find` runs once unless no match scores above 0. One prompt is sent exactly when something was retrieved. A `no_result` answer sends no prompt. |
| QueryOrchestrator.QueryService.Retrieve | backend/src/services/query_service.py:55-77 | After the guard, the result is the retrieved outcome, one embedding request is made, and the index, `find` and prompt requests are as stated for `handle`. |
| DocProcessing.WindowsInBounds | data-pipeline/src/doc_processing.py:54-59 | Every window lies within the tokens and holds 1 to `chunk_size` tokens. The first window starts at the start. There are no windows exactly when the start is past the end. |
| DocProcessing.WindowsStep | data-pipeline/src/doc_processing.py:55-59 | Every window but the last is full, and the next one starts `overlap` tokens before the previous one ends. |
| DocProcessing.WindowsReachEnd | data-pipeline/src/doc_processing.py:54-58 | With a non-negative overlap, the last window ends at the last token. |
| DocProcessing.WindowsCover | data-pipeline/src/doc_processing.py:54-59 | With a non-negative overlap, every token lies in some window. |
| DocProcessing.OverlapTooLargeStalls | data-pipeline/src/doc_processing.py:57-59 | With `overlap >= chunk_size`, a window that does not reach the end is followed by one that starts no later, so the loop never ends. |
| DocProcessing.ChunkTokens | data-pipeline/src/doc_processing.py:51-60 | The window loop produces exactly the windows' tokens joined by spaces. |
| DocProcessing.ChunkText | data-pipeline/src/doc_processing.py:50-60 | `chunk_text` splits the text into tokens, then runs the window loop. |
| DocProcessing.ChunksAreWindows | data-pipeline/src/doc_processing.py:51-58 | Splitting chunk i again gives exactly token window i, which holds 1 to `chunk_size` tokens. |
| DocProcessing.NoTokensNoChunks | data-pipeline/src/doc_processing.py:51-54 | There are no chunks exactly when the text has no tokens. |
| DocProcessing.ShortTextOneChunk | data-pipeline/src/doc_processing.py:55-58 | A text of at most `chunk_size` tokens gives one chunk: its tokens joined by single spaces. |
| DocProcessing.ConsecutiveParts | data-pipeline/src/doc_processing.py:59 | Each chunk but the last has `chunk_size` tokens, and the next chunk begins with its last `overlap` tokens. |
| DocProcessing.PartsOverlap | data-pipeline/src/doc_processing.py:53-59 | The first chunk starts at token 0, the last ends at the final token, and consecutive chunks share `overlap` tokens. |
| DocProcessing.PartsCover | data-pipeline/src/doc_processing.py:54-59 | Every token appears in some chunk, at its own position. |
| DocProcessing.ChunksAreTrimmed | data-pipeline/src/doc_processing.py:56 | Every chunk is already stripped. |
| DocProcessing.SourceText | data-pipeline/src/doc_processing.py:64-66 | The text that is chunked is the normalised HTML, or the scraped text when normalisation leaves only white space. |
| DocProcessing.ChunkIdNamesPosition | data-pipeline/src/doc_processing.py:70 | A chunk id is the URL, then "#section-", then digits that parse back to the position. |
| DocProcessing.ChunkIdsDiffer | data-pipeline/src/doc_processing.py:70 | Equal chunk ids name equal positions, so different positions give different chunk ids. |
| DocProcessing.ChunksOfDocument | data-pipeline/src/doc_processing.py:69-81 | One chunk per segment, in order. Chunk i carries the document's scheme, category, URL and date, the stripped segment, section "Section i", id `url#section-i` and metadata `{"position": "i"}`. |
| DocProcessing.ChunkIdsDistinct | data-pipeline/src/doc_processing.py:69-81 | The chunk ids of a document are pairwise distinct. |
| DocProcessing.BuildChunks | data-pipeline/src/doc_processing.py:63-83 | `build_chunks` numbers from 1 the chunks of the source text, cut with the default overlap. |
| DocProcessing.BuiltContentIsSegment | data-pipeline/src/doc_processing.py:77 | Each built chunk's content is its segment as it is. |
| Embedding.Texts | data-pipeline/src/embedding.py:38 | One text per chunk of the batch: its content. |
| Embedding.Zip | data-pipeline/src/embedding.py:40-41 | As many records as the shorter of the batch and the vectors, each pairing a chunk with its vector. |
| Embedding.BatchesBounded | data-pipeline/src/embedding.py:44-51 | Every batch is non-empty and holds at most the capacity, and every batch but the last is full. |
| Embedding.BatchesFlatten | data-pipeline/src/embedding.py:44-51 | Batching loses, repeats and reorders nothing. |
| Embedding.RecordsFollowBatches | data-pipeline/src/embedding.py:40-41 | There are never more records than chunks. When the provider returns one vector per text, the records hold exactly the batched chunks, in order. |
| Embedding.RecordsFromInput | data-pipeline/src/embedding.py:40-41 | Every record holds a chunk of one of the batches. |
| Embedding.RecordsCarryVectors | data-pipeline/src/embedding.py:38-41 | When the provider embeds each text on its own, each record carries the vector of its chunk's content. |
| Embedding.EmbeddedChunks | data-pipeline/src/embedding.py:44-51 | Every record holds a chunk with non-blank content, and there are no more records than such chunks. With one vector per text, the records hold exactly those chunks, in input order. |
| Embedding.RequestsBounded | data-pipeline/src/embedding.py:36-37 | Each request holds between 1 and `max(batch_size, 1)` texts. An empty batch is never sent. |
| Embedding.EmbeddingModule.Client | data-pipeline/src/embedding.py:18-25 | A cached client is returned as it is. Without one, an empty key fails with "OPENAI_API_KEY is required for embeddings", and otherwise a fresh client is created and cached. |
| Embedding.EmbeddingModule.Flush | data-pipeline/src/embedding.py:34-42 | An empty buffer sends nothing. Otherwise one request carries the buffer's texts, and the records are the zip of the buffer with the answer. |
| Embedding.EmbeddingModule.SendInBatches | data-pipeline/src/embedding.py:44-51 | The loop yields the records of the batches of the non-blank chunks, with one request per batch. |
| Embedding.EmbeddingModule.EmbedChunks | data-pipeline/src/embedding.py:28-53 | Fails exactly when no client can be had. Otherwise it returns the records of the non-blank chunks in batches and keeps the cached client. |
| PineconeLoading.MetadataMerge | data-pipeline/src/pinecone_loader.py:26-33 | The metadata has the five base keys plus the chunk's own keys. A chunk key keeps the chunk's value; any other base key keeps the chunk's field. |
| PineconeLoading.VectorIdRule | data-pipeline/src/pinecone_loader.py:36 | The id is the chunk id when that is a non-empty string, and otherwise `url#section`. It is never empty. |
| PineconeLoading.VectorsFollowRecords | data-pipeline/src/pinecone_loader.py:25-40 | One vector per record, in order, with the record's values and its chunk's id and metadata. |
| PineconeLoading.IdsMembers | data-pipeline/src/pinecone_loader.py:34-40 | The id set of a vector list holds exactly the ids of its vectors. |
| PineconeLoading.UpsertedKeys | data-pipeline/src/pinecone_loader.py:43 | After an upsert the index holds exactly the old ids and the new ones. |
| PineconeLoading.UpsertedKeepsOthers | data-pipeline/src/pinecone_loader.py:43 | An entry whose id none of the vectors carries is unchanged. |
| PineconeLoading.UpsertedLastWins | data-pipeline/src/pinecone_loader.py:43 | A vector whose id no later vector carries is stored under that id. |
| PineconeLoading.DistinctChunkIdsDistinctVectors | data-pipeline/src/pinecone_loader.py:36 | Chunks with distinct non-empty ids give vectors with distinct ids. |
| PineconeLoading.DocumentChunksAllStored | data-pipeline/src/pinecone_loader.py:23-43 | Loading the embeddings of one document's chunks stores every one of them under its chunk id. |
| PineconeLoading.PineconeLoader.Connect | data-pipeline/src/pinecone_loader.py:17-21 | Fails with "PINECONE_API_KEY is required" exactly when the key is empty. Otherwise it opens the index with no upserts made. |
| PineconeLoading.PineconeLoader.Upsert | data-pipeline/src/pinecone_loader.py:23-43 | The index becomes the old index with the record vectors upserted in order. Exactly one upsert call is made when there are records, none otherwise. |
| Storage.FirstMatch | data-pipeline/src/storage.py:28-41 | Gives the first record the filter selects, or none when it selects none. |
| Storage.FirstMatchAt | data-pipeline/src/storage.py:28-41 | A selected record with no selected record before it is the first match. |
| Storage.FirstMatchAgree | data-pipeline/src/storage.py:61-65 | Record lists on which a filter selects the same positions have the same first match. |
| Storage.UpdateOne | data-pipeline/src/storage.py:61-65 | `update_one(..., upsert=True)` reports an upserted `_id` exactly when the filter selects nothing. It then appends the fields with the next `_id`. Otherwise it replaces the fields of the first selected record, which keeps its `_id`. |
| Storage.UpdateOneStores | data-pipeline/src/storage.py:61-65 | After an upsert, the first selected record holds the new fields. A new record with the next `_id` is appended exactly when nothing matched. Otherwise the records and their `_id`s stay in place and only the matched record changes. |
| Storage.UpdateOneDisjoint | data-pipeline/src/storage.py:61-65 | An upsert leaves the first match of a disjoint filter, and that record, unchanged. |
| Storage.DocumentsLastWins | data-pipeline/src/storage.py:25-42 | After `upsert_documents`, the first record under a document's URL holds the last document with that URL. |
| Storage.DocumentsKeepOthers | data-pipeline/src/storage.py:25-42 | A URL none of the documents carries keeps its record. |
| Storage.FilterSelectsOwnChunk | data-pipeline/src/storage.py:57-60 | A chunk's filter (by id when truthy, else by URL and section) selects the chunk itself. |
| Storage.ReportedIdsBounded | data-pipeline/src/storage.py:66-70 | `upsert_chunks` returns at most one id per chunk. |
| Storage.ReportedIdsOfIdentified | data-pipeline/src/storage.py:66-67 | When every chunk has a non-empty id, the returned ids are exactly those ids, in order. |
| Storage.UnidentifiedReport | data-pipeline/src/storage.py:57-69 | A chunk without an id reports nothing when a record with its URL and section exists. Otherwise it reports the new record's `_id` as a string. |
| Storage.IdentifiedChunksAllStored | data-pipeline/src/storage.py:44-70 | Chunks with distinct non-empty ids are each stored under their id. |
| Storage.MongoStore.UpsertDocuments | data-pipeline/src/storage.py:25-42 | The documents collection becomes the old one with each document upserted by URL, in order. The chunks are untouched. |
| Storage.MongoStore.UpsertChunks | data-pipeline/src/storage.py:44-70 | The chunks collection and the returned ids are those of upserting each chunk by its filter, in order. The documents are untouched. |
| Storage.MongoStore.Close | data-pipeline/src/storage.py:72-73 | Closes the client and leaves the stored data as it is. |
| Scraper.FetchOutcome | data-pipeline/src/scraper.py:36-50 | At most `retries` attempts are made. The call succeeds exactly when some attempt returns status 200, with the first such body. Otherwise it fails with the error of attempt `retries`, or with "Failed to fetch url" after no attempt when `retries < 1`. |
| Scraper.FetchFromOutcome | data-pipeline/src/scraper.py:39-49 | The retry loop from a given attempt on, when every earlier attempt failed. |
| Scraper.FetchHtml | data-pipeline/src/scraper.py:36-50 | The retry loop gives the outcome and attempt count of `fetch_html`. |
| Scraper.LineEnd | data-pipeline/src/scraper.py:60 | The first line ends at the first line-break character, or at the end. |
| Scraper.SplitLines | data-pipeline/src/scraper.py:60 | The lines are non-empty in number and contain no line-break character. |
| Scraper.SplitLinesOfJoin | data-pipeline/src/scraper.py:59-60 | Lines without line breaks, joined with "\n", split back into themselves. |
| Scraper.CleanTextLines | data-pipeline/src/scraper.py:59-61 | The cleaned text splits back into its lines. Each line is non-empty and stripped and comes from the page. Every non-blank page line appears stripped. |
| Scraper.CleanLinesAreClean | data-pipeline/src/scraper.py:59-61 | Every cleaned line is non-empty, stripped and free of line breaks. |
| Scraper.GrowwLinksProperties | data-pipeline/src/scraper.py:63-67 | The links all start with `https://groww.in/`. They are exactly the Groww links of the page, have no duplicates, and keep first-occurrence order. |
| Scraper.ExtractLinks | data-pipeline/src/scraper.py:63-67 | The link loop keeps each Groww link once, in first-occurrence order. |
| Scraper.ExtractTextAndLinks | data-pipeline/src/scraper.py:53-68 | Returns the cleaned text and the Groww links. |
| Scraper.Augment | data-pipeline/src/scraper.py:94-102 | The text changes exactly when the scheme is the Flexi Cap one, the snippet is non-empty and the text lacks "Fund management". It then becomes text + "\n\n" + snippet. |
| Scraper.AugmentIdempotent | data-pipeline/src/scraper.py:94-102 | A snippet that names the fund-management section is added at most once. |
| Scraper.ScrapeFields | data-pipeline/src/scraper.py:71-83 | A scrape fails exactly when the fetch fails. Otherwise the document carries the page's scheme, category and URL, the HTML, the verification date and the page's Groww links. |
| Scraper.Scrape | data-pipeline/src/scraper.py:71-83 | `scrape_scheme` succeeds exactly when the fetch with the default retries does, failing with its error. A document carries the page's URL and scheme, the fetched HTML and the run's date. |
| Scraper.ScrapeAllOf | data-pipeline/src/scraper.py:86-91 | `scrape_all` gives one document per page on success. A failure comes from some page that could not be scraped. |
| Scraper.ScrapeScheme | data-pipeline/src/scraper.py:71-83 | `scrape_scheme` fetches with the default retries, extracts and augments. |
| Scraper.ScrapeAllDocuments | data-pipeline/src/scraper.py:86-91 | `scrape_all` succeeds exactly when every page scrapes, and then gives one document per page, in order. |
| Scraper.ScrapeAllFirstFailure | data-pipeline/src/scraper.py:86-91 | A failure of `scrape_all` is the error of the first page that fails. |
| Scraper.ScrapeAllFailurePersists | data-pipeline/src/scraper.py:86-91 | Once a prefix of the pages fails, the whole run fails the same way. |
| Scraper.ScrapeAllFields | data-pipeline/src/scraper.py:86-91 | Every scraped document carries its scheme entry's scheme, category and URL, and the verification date. |
| Scraper.SchemeUrlsDistinct | data-pipeline/src/constants.py:6-41 | The scheme list names six pages with distinct URLs. |
| Scraper.ScrapeAll | data-pipeline/src/scraper.py:86-91 | The loop over the scheme list gives exactly the `scrape_all` outcome. |
| Frontend.Priority | frontend/src/App.tsx:22-26 | The priority is 0, 1 or 2. |
| Frontend.PriorityRule | frontend/src/App.tsx:22-26 | The rank is 0 exactly when the URL contains `groww.in`, even if it also contains `hdfcfund.com`. It is 1 exactly when it contains only `hdfcfund.com`. |
| Frontend.SortCitations | frontend/src/App.tsx:21-29 | `sortCitations` lists only input citations, and every input citation is listed. |
| Frontend.SortCitationsPermutes | frontend/src/App.tsx:27-28 | The sorted citations are a permutation of the deduplicated ones and have the same URLs as the input. |
| Frontend.PriorityClassesPartition | frontend/src/App.tsx:28 | Every citation lands in exactly one priority class. |
| Frontend.SortCitationsOrdered | frontend/src/App.tsx:28 | Groww citations come first, then HDFC Fund ones, then the rest. |
| Frontend.FilterKeepsOrder | frontend/src/App.tsx:28 | A priority class keeps the order of the deduplicated list. |
| Frontend.SortCitationsStable | frontend/src/App.tsx:27-28 | Within a class, citations keep their first-occurrence order, and no citation is listed twice. |
| Frontend.Utf16Length | frontend/src/App.tsx:37 | A string's JavaScript length is between its number of code points and twice that. |
| Frontend.IsDisabled | frontend/src/App.tsx:37 | The button is disabled while a request is in flight and for a trimmed question of at most two code points. It is enabled for a trimmed question of at least five code points when no request is in flight. |
| Frontend.EnabledQuestionLongEnough | frontend/src/App.tsx:37 | An enabled button implies no request in flight and a trimmed question of at least the backend's 3 characters. So the submit handler's blank check never stops an enabled question. |
| Frontend.Heading | frontend/src/App.tsx:39-43 | The heading is "We only provide facts" exactly when an answer is shown and is not factual, and the title otherwise. |

## Left out

- Hosted services are parameters whose answers are not modelled:
  - the chat and embedding models;
  - the Pinecone index query;
  - MongoDB's `find`;
  - HTTP `requests.get`.
- HTML parsing is a parameter; only its outputs are modelled. This covers the BeautifulSoup text and anchor extraction, Docling's `normalize_text`, and `_extract_fund_management_section`, whose DOTALL regex runs over raw HTML.
- Connecting and closing clients is left out: `MongoClient`, `Pinecone(...)`, `Index(...)`, the retriever's and service's `close`. Only `MongoStore.close` is modelled, as a flag.
- Configuration (environment variables, `get_settings`, `CONFIG`) is passed in as parameters:
  - API keys;
  - the index name;
  - the refusal link;
  - the collections' initial contents;
  - `LAST_VERIFIED`, which reads the clock.
- The clock in `build_citation` is the `today` parameter.
- Time and backoff in `fetch_html` are left out. `time.sleep(backoff * attempt)` only delays, and only the attempts and their outcomes are modelled.
- `_headers`, `_scheme_entries`, `save_raw_documents`, `export_sources` and `pipeline.py` are file writes, request headers and I/O sequencing.
- Logging is left out throughout.
- The FastAPI layer (`backend/src/app.py`) and React rendering, state setters and `fetch` in App.tsx are left out.
- Floating point: embedding vectors are opaque `seq<real>`, scores are reals used only in `> 0`, and `confidence` is the constant 1.0.
- Storage.MongoStore.UpsertDocuments is modelled on ordered record lists, not as maps keyed by URL. `update_one` updates the first record its filter selects, or inserts one, and a chunk filtered by URL and section can select a record stored with an id. A map would hide that. `_id`s are consecutive numbers per collection, and `str(ObjectId)` is their decimal numeral, so only freshness is modelled.
- Scraper.SplitLines cuts at every line-break character that `str.splitlines` knows. It treats `\r\n` as two breaks and yields a trailing empty line. The two differ only by empty lines, which the cleanup drops.
- Models.ValidateRequest counts code points, as Python does, and does not model Pydantic's message format beyond fixed strings.
- DocProcessing.ChunkText requires `0 < chunk_size` and `overlap < chunk_size`. Every call site passes 700 and 100. Outside that range the source loop stalls on some inputs: with `overlap >= chunk_size` and more than `chunk_size` tokens, `start` never advances, as DocProcessing.OverlapTooLargeStalls proves. Other inputs outside the range are not modelled. Examples: `chunk_size = 0` with a negative overlap, which ends with one empty chunk per token, and a negative `chunk_size`, which slices with a negative end. DocProcessing.BuildChunks therefore requires `chunk_size > 100`, the fixed overlap.
- Llm.WithMarkerIdempotent requires a non-blank completion. A blank one is not idempotent, as Llm.BlankCompletionNotIdempotent shows.
- The regular expressions are modelled by a small syntax covering exactly what the advisory patterns use: literals, `(a|b)`, `?` and `.*`. Case folding is ASCII-only lower-casing.
- AdviceGuard.Classify and QueryOrchestrator.SelectBest lower-case and match case-insensitively on ASCII letters only. Python's `re.IGNORECASE` also matches 'İ' and 'ı' with 'i', 'ſ' with 's', and the Kelvin sign with 'k', so "İnvest now?" is advisory in the source but not in the model. Likewise `str.lower()` in `_select_best_citation` lowers every Unicode letter, which the model does not.
- QueryOrchestrator.QueryService.constructor takes the LLM client and the retriever already built. The source's defaults, `OpenAIClient()` and `RetrieverService()`, are Llm.OpenAIClient.Connect and Retriever.RetrieverService.Connect, which a caller runs first. Their failure on a missing key is modelled there, not in the constructor.
- `JSON.stringify` and the request body are left out of the page. Frontend.EnabledQuestionLongEnough covers only the trimmed question that is sent.

## Findings

| source | as written | input that shows it | evidently intended | confidence | as-written member | corrected member |
|---|---|---|---|---|---|---|
| backend/src/services/query_service.py:69 | `answer.replace("[CITATION]", "").strip()` removes the marker in one pass. | The completion "[CITA[CITATION]TION]" already holds the marker, so the LLM step passes it unchanged. One replace then joins the halves into "[CITATION]". | The returned `rag` answer holds no citation marker. | not executed | QueryOrchestrator.SingleReplaceLeavesMarker | QueryOrchestrator.CleanAnswer |

The model of `handle` (QueryOrchestrator.RagAnswer, QueryOrchestrator.Outcome, QueryOrchestrator.QueryService.Handle) follows the source as written, with the single replace. QueryOrchestrator.CleanAnswer is the corrected cleanup. It is proved free of the marker, and RagAnswer's contract states that it equals the source's cleanup whenever one replace leaves no marker.
