/** The records that flow through the data pipeline
    (data-pipeline/src/models.py). */
module PipelineModels {
  import opened Wrappers

  /** The seed of a scheme page: which scheme, its category and its URL. */
  datatype SchemePage = SchemePage(scheme: string, category: string, url: string)

  /** A scraped page: the HTML, its cleaned text, the verification date and
      the links found on it. */
  datatype ScrapedDocument = ScrapedDocument(
    scheme: string,
    category: string,
    url: string,
    html: string,
    text: string,
    lastVerified: string,
    extraLinks: seq<string>)

  /** A passage of a document, ready for storage and embedding. */
  datatype Chunk = Chunk(
    scheme: string,
    category: string,
    url: string,
    section: string,
    content: string,
    lastVerified: string,
    metadata: map<string, string>,
    chunkId: Option<string>)

  /** A chunk together with its embedding vector. */
  datatype EmbeddingRecord = EmbeddingRecord(chunk: Chunk, vector: seq<real>)

  /** Python truthiness of an optional string: present and non-empty. */
  predicate Truthy(s: Option<string>) {
    s.Some? && s.value != ""
  }
}
