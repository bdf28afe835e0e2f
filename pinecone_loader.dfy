/** The loader that pushes embeddings into the vector index
    (data-pipeline/src/pinecone_loader.py). The index is modelled by what it
    stores, a map from vector id to vector: an upsert inserts each vector
    under its id and overwrites a vector already stored there. The number of
    `upsert` calls made to the index is the ghost counter `upsertCalls`. */
module PineconeLoading {
  import opened Wrappers
  import opened PipelineModels
  import DocProcessing

  const MissingKey := "PINECONE_API_KEY is required"
  const DefaultIndexName := "groww-hdfc-faq"

  /** One entry of the `vectors` list: id, values and metadata. */
  datatype Vector = Vector(id: string, values: seq<real>, metadata: map<string, string>)

  /** The five metadata keys every vector carries, taken from its chunk. */
  function BaseMetadata(c: Chunk): map<string, string> {
    map["scheme" := c.scheme, "category" := c.category, "url" := c.url,
        "section" := c.section, "last_verified" := c.lastVerified]
  }

  /** The base metadata updated with the chunk's own metadata, whose entries
      win on a shared key. */
  function MetadataOf(c: Chunk): map<string, string> {
    BaseMetadata(c) + c.metadata
  }

  /** `chunk_id or f"{url}#{section}"`. */
  function VectorId(c: Chunk): string {
    if Truthy(c.chunkId) then c.chunkId.value else c.url + "#" + c.section
  }

  function VectorOf(r: EmbeddingRecord): Vector {
    Vector(VectorId(r.chunk), r.vector, MetadataOf(r.chunk))
  }

  /** The vectors built for a list of records, one per record, in order. */
  function VectorsOf(rs: seq<EmbeddingRecord>): seq<Vector> {
    seq(|rs|, k requires 0 <= k < |rs| => VectorOf(rs[k]))
  }

  /** The index after the vectors `vs` were upserted in order. */
  function Upserted(index: map<string, Vector>, vs: seq<Vector>): map<string, Vector> {
    if vs == [] then index else
      var last := vs[|vs| - 1];
      Upserted(index, vs[..|vs| - 1])[last.id := last]
  }

  /** The metadata holds the five base keys and the chunk's own keys; a key
      of the chunk's metadata keeps the chunk's value, any other base key the
      chunk's field. */
  lemma MetadataMerge(c: Chunk)
    ensures var md := MetadataOf(c);
      md.Keys == {"scheme", "category", "url", "section", "last_verified"} + c.metadata.Keys &&
      (forall k :: k in c.metadata ==> md[k] == c.metadata[k]) &&
      ("scheme" !in c.metadata ==> md["scheme"] == c.scheme) &&
      ("category" !in c.metadata ==> md["category"] == c.category) &&
      ("url" !in c.metadata ==> md["url"] == c.url) &&
      ("section" !in c.metadata ==> md["section"] == c.section) &&
      ("last_verified" !in c.metadata ==> md["last_verified"] == c.lastVerified)
  {
  }

  /** A vector takes its chunk's id when that id is a non-empty string, and
      `url#section` otherwise. */
  lemma VectorIdRule(c: Chunk)
    ensures Truthy(c.chunkId) ==> VectorId(c) == c.chunkId.value
    ensures !Truthy(c.chunkId) ==> VectorId(c) == c.url + "#" + c.section
    ensures VectorId(c) != ""
  {
    if !Truthy(c.chunkId) {
      assert |c.url + "#" + c.section| >= 1;
    }
  }

  /** One vector per record, in record order, carrying the record's vector
      and its chunk's id and metadata. */
  lemma VectorsFollowRecords(rs: seq<EmbeddingRecord>)
    ensures var vs := VectorsOf(rs);
      |vs| == |rs| &&
      forall k :: 0 <= k < |rs| ==>
        vs[k].values == rs[k].vector && vs[k].id == VectorId(rs[k].chunk) &&
        vs[k].metadata == MetadataOf(rs[k].chunk)
  {
  }

  /** The ids carried by a list of vectors. */
  function Ids(vs: seq<Vector>): set<string> {
    if vs == [] then {} else Ids(vs[..|vs| - 1]) + {vs[|vs| - 1].id}
  }

  lemma {:induction false} IdsMembers(vs: seq<Vector>)
    ensures forall x :: x in Ids(vs) <==> exists k :: 0 <= k < |vs| && vs[k].id == x
  {
    if vs != [] {
      var init := vs[..|vs| - 1];
      IdsMembers(init);
      assert forall k :: 0 <= k < |init| ==> init[k] == vs[k];
    }
  }

  /** After an upsert the index holds exactly the old ids and the new ones. */
  lemma {:induction false} UpsertedKeys(index: map<string, Vector>, vs: seq<Vector>)
    ensures Upserted(index, vs).Keys == index.Keys + Ids(vs)
  {
    if vs != [] {
      UpsertedKeys(index, vs[..|vs| - 1]);
    }
  }

  /** An entry whose id none of the vectors carries is left untouched. */
  lemma {:induction false} UpsertedKeepsOthers(index: map<string, Vector>, vs: seq<Vector>, x: string)
    requires x in index && x !in Ids(vs)
    ensures x in Upserted(index, vs) && Upserted(index, vs)[x] == index[x]
  {
    if vs != [] {
      UpsertedKeepsOthers(index, vs[..|vs| - 1], x);
    }
  }

  /** A vector whose id no later vector carries is stored under its id. */
  lemma {:induction false} UpsertedLastWins(index: map<string, Vector>, vs: seq<Vector>, k: nat)
    requires k < |vs|
    requires forall j :: k < j < |vs| ==> vs[j].id != vs[k].id
    ensures vs[k].id in Upserted(index, vs) && Upserted(index, vs)[vs[k].id] == vs[k]
  {
    if k < |vs| - 1 {
      var init := vs[..|vs| - 1];
      assert init[k] == vs[k];
      forall j | k < j < |init| ensures init[j].id != init[k].id {
        assert init[j] == vs[j];
      }
      UpsertedLastWins(index, init, k);
    }
  }

  /** Chunks with pairwise distinct non-empty ids give vectors with pairwise
      distinct ids, so one load overwrites none of its own vectors. */
  lemma DistinctChunkIdsDistinctVectors(rs: seq<EmbeddingRecord>)
    requires forall k :: 0 <= k < |rs| ==> Truthy(rs[k].chunk.chunkId)
    requires forall i, j :: 0 <= i < j < |rs| ==> rs[i].chunk.chunkId != rs[j].chunk.chunkId
    ensures var vs := VectorsOf(rs);
      forall i, j :: 0 <= i < j < |vs| ==> vs[i].id != vs[j].id
  {
  }

  /** Loading the embeddings of one document's chunks, in chunk order, stores
      every one of them in the index under its chunk id. */
  lemma DocumentChunksAllStored(index: map<string, Vector>, doc: ScrapedDocument,
                                segments: seq<string>, rs: seq<EmbeddingRecord>)
    requires |rs| == |segments|
    requires forall k :: 0 <= k < |rs| ==> rs[k].chunk == DocProcessing.ChunksOf(doc, segments)[k]
    ensures var r := Upserted(index, VectorsOf(rs));
      forall k :: 0 <= k < |rs| ==>
        rs[k].chunk.chunkId.Some? && rs[k].chunk.chunkId.value in r &&
        r[rs[k].chunk.chunkId.value] == VectorOf(rs[k])
  {
    var cs := DocProcessing.ChunksOf(doc, segments);
    var vs := VectorsOf(rs);
    DocProcessing.ChunkIdsDistinct(doc, segments);
    forall k | 0 <= k < |rs| ensures Truthy(rs[k].chunk.chunkId) {
      var id := DocProcessing.ChunkIdOf(doc.url, k + 1);
      assert rs[k].chunk.chunkId == Some(id);
      assert |id| >= 1;
    }
    DistinctChunkIdsDistinctVectors(rs);
    forall k | 0 <= k < |rs|
      ensures rs[k].chunk.chunkId.value in Upserted(index, vs)
      ensures Upserted(index, vs)[rs[k].chunk.chunkId.value] == VectorOf(rs[k])
    {
      UpsertedLastWins(index, vs, k);
    }
  }

  /** The loader: the API key and index name it was built with, the index's
      contents, and the number of upsert calls it made. */
  class PineconeLoader {
    const apiKey: string
    const indexName: string
    var index: map<string, Vector>
    ghost var upsertCalls: nat

    constructor (apiKey: string, indexName: string, index: map<string, Vector>)
      ensures this.apiKey == apiKey && this.indexName == indexName && this.index == index
      ensures upsertCalls == 0
    {
      this.apiKey := apiKey;
      this.indexName := indexName;
      this.index := index;
      upsertCalls := 0;
    }

    /** `PineconeLoader()`: refuses an empty API key, otherwise opens the
        configured index, whose current contents are `index`. */
    static method Connect(apiKey: string, indexName: string, index: map<string, Vector>)
      returns (r: Result<PineconeLoader, string>)
      ensures r.Failure? <==> apiKey == ""
      ensures r.Failure? ==> r.error == MissingKey
      ensures r.Success? ==> fresh(r.value)
      ensures r.Success? ==> r.value.apiKey == apiKey && r.value.indexName == indexName
      ensures r.Success? ==> r.value.index == index && r.value.upsertCalls == 0
    {
      if apiKey == "" {
        return Failure(MissingKey);
      }
      var loader := new PineconeLoader(apiKey, indexName, index);
      return Success(loader);
    }

    /** `upsert`: builds one vector per record and sends them in a single
        upsert call, or makes no call at all when there are none. */
    method Upsert(embeddings: seq<EmbeddingRecord>)
      modifies this
      ensures index == Upserted(old(index), VectorsOf(embeddings))
      ensures upsertCalls == old(upsertCalls) + (if embeddings == [] then 0 else 1)
    {
      var vectors: seq<Vector> := [];
      for i := 0 to |embeddings|
        invariant |vectors| == i
        invariant forall k :: 0 <= k < i ==> vectors[k] == VectorOf(embeddings[k])
      {
        var record := embeddings[i];
        var metadata := BaseMetadata(record.chunk);
        metadata := metadata + record.chunk.metadata;
        var id := if Truthy(record.chunk.chunkId) then record.chunk.chunkId.value
                  else record.chunk.url + "#" + record.chunk.section;
        vectors := vectors + [Vector(id, record.vector, metadata)];
      }
      assert vectors == VectorsOf(embeddings);
      if vectors != [] {
        index := Upserted(index, vectors);
        upsertCalls := upsertCalls + 1;
      }
    }
  }
}
