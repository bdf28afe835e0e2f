/** The MongoDB store of the data pipeline (data-pipeline/src/storage.py):
    scraped documents are upserted by URL, chunks by chunk id or, for a chunk
    without one, by URL and section.

    A collection is modelled by its records in natural order, each with the
    `_id` the server gave it, and the next `_id` the server will hand out;
    `update_one(filter, {"$set": fields}, upsert=True)` is `UpdateOne`:
    the first record the filter selects gets the fields, and when none is
    selected a new record holding them is appended. */
module Storage {
  import opened Wrappers
  import opened Strings
  import opened PipelineModels

  const DefaultUri := "mongodb://localhost:27017"
  const DefaultDbName := "mutual_fund_faq"
  const DocumentsCollection := "documents"
  const ChunksCollection := "chunks"

  /** A stored record: its `_id` and its fields. */
  datatype Stored<T> = Stored(oid: nat, fields: T)

  /** A collection: its records in natural order and the next `_id`. */
  datatype Collection<T> = Collection(records: seq<Stored<T>>, nextId: nat)

  /** The collection after an `update_one`, and the `upserted_id` of the
      result: the new record's `_id`, or `None` when a record was updated. */
  datatype Updated<T> = Updated(coll: Collection<T>, upserted: Option<nat>)

  /** The position of the first record the filter selects. */
  function FirstMatch<T>(rs: seq<Stored<T>>, selects: T -> bool): (r: Option<nat>)
    ensures r.Some? ==> r.value < |rs| && selects(rs[r.value].fields)
    ensures r.Some? ==> forall j :: 0 <= j < r.value ==> !selects(rs[j].fields)
    ensures r.None? ==> forall j :: 0 <= j < |rs| ==> !selects(rs[j].fields)
  {
    if rs == [] then None
    else if selects(rs[0].fields) then Some(0)
    else match FirstMatch(rs[1..], selects)
      case None => None
      case Some(i) => Some(i + 1)
  }

  /** `update_one(filter, {"$set": fields}, upsert=True)`, where every stored
      field is among those set. */
  function UpdateOne<T>(c: Collection<T>, selects: T -> bool, fields: T): (u: Updated<T>)
    ensures u.upserted.Some? <==> FirstMatch(c.records, selects).None?
    ensures u.upserted.Some? ==> u.upserted.value == c.nextId && u.coll.records == c.records + [Stored(c.nextId, fields)]
    ensures u.upserted.None? ==> var i := FirstMatch(c.records, selects).value;
      u.coll.records == c.records[i := Stored(c.records[i].oid, fields)] && u.coll.nextId == c.nextId
  {
    match FirstMatch(c.records, selects)
    case Some(i) => Updated(Collection(c.records[i := Stored(c.records[i].oid, fields)], c.nextId), None)
    case None => Updated(Collection(c.records + [Stored(c.nextId, fields)], c.nextId + 1), Some(c.nextId))
  }

  /** The filter selects record `n` and none before it. */
  lemma FirstMatchAt<T>(rs: seq<Stored<T>>, selects: T -> bool, n: nat)
    requires n < |rs| && selects(rs[n].fields)
    requires forall j :: 0 <= j < n ==> !selects(rs[j].fields)
    ensures FirstMatch(rs, selects) == Some(n)
  {
  }

  /** Lists of records on which the filter selects the same positions have
      the same first match. */
  lemma {:induction false} FirstMatchAgree<T>(a: seq<Stored<T>>, b: seq<Stored<T>>, selects: T -> bool)
    requires |a| <= |b|
    requires forall j :: 0 <= j < |a| ==> (selects(a[j].fields) <==> selects(b[j].fields))
    requires forall j :: |a| <= j < |b| ==> !selects(b[j].fields)
    ensures FirstMatch(a, selects) == FirstMatch(b, selects)
  {
    if a != [] && !selects(b[0].fields) {
      assert forall j :: 0 <= j < |a| - 1 ==> a[1..][j] == a[j + 1] && b[1..][j] == b[j + 1];
      assert forall j :: |a| - 1 <= j < |b| - 1 ==> b[1..][j] == b[j + 1];
      FirstMatchAgree(a[1..], b[1..], selects);
    }
  }

  /** An upsert whose fields its own filter selects leaves the first record
      that filter selects holding those fields. It inserts a record, with the
      next `_id`, exactly when no record was selected, and otherwise keeps
      every `_id` and every other record. */
  lemma UpdateOneStores<T>(c: Collection<T>, selects: T -> bool, fields: T)
    requires selects(fields)
    ensures var u := UpdateOne(c, selects, fields);
      var m := FirstMatch(u.coll.records, selects);
      m.Some? && u.coll.records[m.value].fields == fields &&
      (u.upserted.Some? <==> FirstMatch(c.records, selects).None?) &&
      (u.upserted.Some? ==> u.upserted.value == c.nextId && |u.coll.records| == |c.records| + 1 &&
                            u.coll.records[..|c.records|] == c.records && u.coll.nextId == c.nextId + 1) &&
      (u.upserted.None? ==> |u.coll.records| == |c.records| && u.coll.nextId == c.nextId &&
                            (forall j :: 0 <= j < |c.records| ==> u.coll.records[j].oid == c.records[j].oid) &&
                            (forall j :: 0 <= j < |c.records| && j != m.value ==> u.coll.records[j] == c.records[j]))
  {
    var rs := UpdateOne(c, selects, fields).coll.records;
    match FirstMatch(c.records, selects)
    case Some(i) =>
      FirstMatchAt(rs, selects, i);
    case None =>
      FirstMatchAt(rs, selects, |c.records|);
  }

  /** An upsert through a filter that selects nothing another filter selects
      does not move or change the first record that other filter selects. */
  lemma UpdateOneDisjoint<T>(c: Collection<T>, selects: T -> bool, fields: T, other: T -> bool)
    requires selects(fields)
    requires forall t :: selects(t) ==> !other(t)
    ensures var rs := UpdateOne(c, selects, fields).coll.records;
      FirstMatch(rs, other) == FirstMatch(c.records, other) &&
      (FirstMatch(rs, other).Some? ==> rs[FirstMatch(rs, other).value] == c.records[FirstMatch(rs, other).value])
  {
    var rs := UpdateOne(c, selects, fields).coll.records;
    FirstMatchAgree(c.records, rs, other);
  }

  // Documents

  /** The filter `{"url": url}`. */
  function UrlIs(url: string): ScrapedDocument -> bool {
    (d: ScrapedDocument) => d.url == url
  }

  /** The documents collection after `upsert_documents(docs)`. */
  function DocumentsAfter(c: Collection<ScrapedDocument>, docs: seq<ScrapedDocument>): Collection<ScrapedDocument> {
    if docs == [] then c else
      var d := docs[|docs| - 1];
      UpdateOne(DocumentsAfter(c, docs[..|docs| - 1]), UrlIs(d.url), d).coll
  }

  /** After `upsert_documents(docs)` the first record stored under the URL of
      a document is the last document written with that URL, all seven of its
      fields. */
  lemma {:induction false} DocumentsLastWins(c: Collection<ScrapedDocument>, docs: seq<ScrapedDocument>, k: nat)
    requires k < |docs|
    requires forall j :: k < j < |docs| ==> docs[j].url != docs[k].url
    ensures var rs := DocumentsAfter(c, docs).records;
      var m := FirstMatch(rs, UrlIs(docs[k].url));
      m.Some? && rs[m.value].fields == docs[k]
  {
    var init := docs[..|docs| - 1];
    var d := docs[|docs| - 1];
    if k == |docs| - 1 {
      UpdateOneStores(DocumentsAfter(c, init), UrlIs(d.url), d);
    } else {
      assert init[k] == docs[k];
      forall j | k < j < |init| ensures init[j].url != init[k].url {
        assert init[j] == docs[j];
      }
      DocumentsLastWins(c, init, k);
      UpdateOneDisjoint(DocumentsAfter(c, init), UrlIs(d.url), d, UrlIs(docs[k].url));
    }
  }

  /** A URL none of the documents carries keeps its first stored record. */
  lemma {:induction false} DocumentsKeepOthers(c: Collection<ScrapedDocument>, docs: seq<ScrapedDocument>, url: string)
    requires forall j :: 0 <= j < |docs| ==> docs[j].url != url
    ensures var rs := DocumentsAfter(c, docs).records;
      var m := FirstMatch(rs, UrlIs(url));
      m == FirstMatch(c.records, UrlIs(url)) && (m.Some? ==> rs[m.value] == c.records[m.value])
  {
    if docs != [] {
      var init := docs[..|docs| - 1];
      var d := docs[|docs| - 1];
      DocumentsKeepOthers(c, init, url);
      UpdateOneDisjoint(DocumentsAfter(c, init), UrlIs(d.url), d, UrlIs(url));
    }
  }

  // Chunks

  /** The filter of a chunk upsert: `{"chunk_id": id}`, or `{"url": url,
      "section": section}` for a chunk without a non-empty id. */
  datatype ChunkFilter = ById(id: string) | ByPlace(url: string, section: string)

  function FilterOf(c: Chunk): ChunkFilter {
    if Truthy(c.chunkId) then ById(c.chunkId.value) else ByPlace(c.url, c.section)
  }

  predicate Selects(f: ChunkFilter, c: Chunk) {
    match f
    case ById(id) => c.chunkId == Some(id)
    case ByPlace(url, section) => c.url == url && c.section == section
  }

  function Selector(f: ChunkFilter): Chunk -> bool {
    (c: Chunk) => Selects(f, c)
  }

  /** `str(upserted_id)`: the `_id` is modelled as a number and its string as
      the number's decimal form. */
  function ObjectIdString(oid: nat): string {
    NatToString(oid)
  }

  /** What one chunk adds to the returned ids: its own id when it has a
      non-empty one, the new record's `_id` when it was inserted, else nothing. */
  function Reported(c: Chunk, upserted: Option<nat>): seq<string> {
    if Truthy(c.chunkId) then [c.chunkId.value]
    else if upserted.Some? then [ObjectIdString(upserted.value)]
    else []
  }

  /** The chunks collection and the returned ids after `upsert_chunks`. */
  datatype ChunkUpsert = ChunkUpsert(coll: Collection<Chunk>, ids: seq<string>)

  function ChunksAfter(c: Collection<Chunk>, chunks: seq<Chunk>): ChunkUpsert {
    if chunks == [] then ChunkUpsert(c, []) else
      var prev := ChunksAfter(c, chunks[..|chunks| - 1]);
      var ch := chunks[|chunks| - 1];
      var u := UpdateOne(prev.coll, Selector(FilterOf(ch)), ch);
      ChunkUpsert(u.coll, prev.ids + Reported(ch, u.upserted))
  }

  /** A chunk's filter selects the chunk itself, so its upsert stores it. */
  lemma FilterSelectsOwnChunk(c: Chunk)
    ensures Selects(FilterOf(c), c)
  {
  }

  /** At most one id is returned per chunk. */
  lemma {:induction false} ReportedIdsBounded(c: Collection<Chunk>, chunks: seq<Chunk>)
    ensures |ChunksAfter(c, chunks).ids| <= |chunks|
  {
    if chunks != [] {
      ReportedIdsBounded(c, chunks[..|chunks| - 1]);
    }
  }

  /** When every chunk has a non-empty id, the returned ids are exactly those
      ids, in chunk order. */
  lemma {:induction false} ReportedIdsOfIdentified(c: Collection<Chunk>, chunks: seq<Chunk>)
    requires forall k :: 0 <= k < |chunks| ==> chunks[k].chunkId.Some? && chunks[k].chunkId.value != ""
    ensures var ids := ChunksAfter(c, chunks).ids;
      |ids| == |chunks| && forall k :: 0 <= k < |chunks| ==> ids[k] == chunks[k].chunkId.value
  {
    if chunks != [] {
      var init := chunks[..|chunks| - 1];
      assert forall k :: 0 <= k < |init| ==> init[k] == chunks[k];
      ReportedIdsOfIdentified(c, init);
    }
  }

  /** A chunk without a non-empty id reports the new record's `_id` when it
      was inserted and nothing when it updated a stored chunk of the same URL
      and section. */
  lemma UnidentifiedReport(prev: Collection<Chunk>, ch: Chunk)
    requires !Truthy(ch.chunkId)
    ensures var u := UpdateOne(prev, Selector(FilterOf(ch)), ch);
      var found := exists j :: 0 <= j < |prev.records| && prev.records[j].fields.url == ch.url &&
                              prev.records[j].fields.section == ch.section;
      (found ==> Reported(ch, u.upserted) == []) &&
      (!found ==> Reported(ch, u.upserted) == [ObjectIdString(prev.nextId)])
  {
    var sel := Selector(FilterOf(ch));
    match FirstMatch(prev.records, sel)
    case Some(i) =>
    case None =>
      assert forall j :: 0 <= j < |prev.records| ==> !sel(prev.records[j].fields);
  }

  /** Chunks with pairwise distinct non-empty ids are all stored: the record
      their id selects holds the chunk, all eight of its fields. */
  lemma {:induction false} IdentifiedChunksAllStored(c: Collection<Chunk>, chunks: seq<Chunk>, k: nat)
    requires forall j :: 0 <= j < |chunks| ==> chunks[j].chunkId.Some? && chunks[j].chunkId.value != ""
    requires forall i, j :: 0 <= i < j < |chunks| ==> chunks[i].chunkId != chunks[j].chunkId
    requires k < |chunks|
    ensures var rs := ChunksAfter(c, chunks).coll.records;
      var m := FirstMatch(rs, Selector(ById(chunks[k].chunkId.value)));
      m.Some? && rs[m.value].fields == chunks[k]
  {
    var init := chunks[..|chunks| - 1];
    var ch := chunks[|chunks| - 1];
    var prev := ChunksAfter(c, init);
    if k == |chunks| - 1 {
      UpdateOneStores(prev.coll, Selector(FilterOf(ch)), ch);
    } else {
      assert init[k] == chunks[k];
      assert forall j :: 0 <= j < |init| ==> init[j] == chunks[j];
      IdentifiedChunksAllStored(c, init, k);
      UpdateOneDisjoint(prev.coll, Selector(FilterOf(ch)), ch, Selector(ById(chunks[k].chunkId.value)));
    }
  }

  /** The store: where it connects, its two collections, and whether it was
      closed. */
  class MongoStore {
    const uri: string
    const dbName: string
    var documents: Collection<ScrapedDocument>
    var chunks: Collection<Chunk>
    var closed: bool

    /** `MongoStore()`: connects to the configured database, whose two
        collections currently hold `documents` and `chunks`. */
    constructor (uri: string, dbName: string, documents: Collection<ScrapedDocument>, chunks: Collection<Chunk>)
      ensures this.uri == uri && this.dbName == dbName
      ensures this.documents == documents && this.chunks == chunks && !closed
    {
      this.uri := uri;
      this.dbName := dbName;
      this.documents := documents;
      this.chunks := chunks;
      closed := false;
    }

    /** `upsert_documents`: one upsert per document, keyed by its URL. */
    method UpsertDocuments(docs: seq<ScrapedDocument>)
      modifies this
      ensures documents == DocumentsAfter(old(documents), docs)
      ensures chunks == old(chunks) && closed == old(closed)
    {
      for i := 0 to |docs|
        invariant documents == DocumentsAfter(old(documents), docs[..i])
        invariant chunks == old(chunks) && closed == old(closed)
      {
        assert docs[..i + 1][..i] == docs[..i];
        var doc := docs[i];
        var result := UpdateOne(documents, UrlIs(doc.url), doc);
        documents := result.coll;
      }
      assert docs[..|docs|] == docs;
    }

    /** `upsert_chunks`: one upsert per chunk, keyed by its id or by URL and
        section; returns the ids reported along the way. */
    method UpsertChunks(cs: seq<Chunk>) returns (ids: seq<string>)
      modifies this
      ensures ChunksAfter(old(chunks), cs) == ChunkUpsert(chunks, ids)
      ensures documents == old(documents) && closed == old(closed)
    {
      ids := [];
      for i := 0 to |cs|
        invariant ChunksAfter(old(chunks), cs[..i]) == ChunkUpsert(chunks, ids)
        invariant documents == old(documents) && closed == old(closed)
      {
        assert cs[..i + 1][..i] == cs[..i];
        var chunk := cs[i];
        var filter := if Truthy(chunk.chunkId) then ById(chunk.chunkId.value)
                      else ByPlace(chunk.url, chunk.section);
        var result := UpdateOne(chunks, Selector(filter), chunk);
        chunks := result.coll;
        if Truthy(chunk.chunkId) {
          ids := ids + [chunk.chunkId.value];
        } else if result.upserted.Some? {
          ids := ids + [ObjectIdString(result.upserted.value)];
        }
      }
      assert cs[..|cs|] == cs;
    }

    /** `close`: closes the client; the stored data stays as it is. */
    method Close()
      modifies this
      ensures closed
      ensures documents == old(documents) && chunks == old(chunks)
    {
      closed := true;
    }
  }
}
