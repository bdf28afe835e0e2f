/** The embedding step of the data pipeline (data-pipeline/src/embedding.py):
    chunks with text are collected into a buffer that is sent to the
    embeddings endpoint whenever it is full and once more at the end, and
    every answer is zipped with its batch into records.

    The endpoint is the function `provider` (the vectors it returns for a
    list of texts, with the configured model); the client is cached in the
    module state, modelled by the class `EmbeddingModule`. A ghost field
    records the lists of texts sent, in order. */
module Embedding {
  import opened Wrappers
  import opened Strings
  import opened Lists
  import opened PipelineModels

  const DefaultBatchSize: int := 32
  const MissingKey := "OPENAI_API_KEY is required for embeddings"

  /** `chunk.content.strip()` is not empty. */
  predicate HasText(c: Chunk) {
    Strip(c.content) != ""
  }

  /** The chunks that are embedded: those with text, in input order. */
  function Embeddable(chunks: seq<Chunk>): seq<Chunk> {
    Filter(chunks, HasText)
  }


  /** The buffer is flushed once it holds `batch_size` chunks, which for a
      `batch_size` below 1 means after every chunk. */
  function Capacity(batchSize: int): nat {
    if batchSize < 1 then 1 else batchSize
  }

  /** `s` cut, from the front, into consecutive pieces of `size` elements;
      the last piece holds what is left. */
  function Batches<T>(s: seq<T>, size: nat): seq<seq<T>>
    requires size > 0
    decreases |s|
  {
    if s == [] then []
    else if |s| <= size then [s]
    else [s[..size]] + Batches(s[size..], size)
  }

  /** The pieces put back together. */
  function Flatten<T>(ss: seq<seq<T>>): seq<T> {
    if ss == [] then [] else ss[0] + Flatten(ss[1..])
  }

  /** `[chunk.content for chunk in batch]`. */
  function Texts(batch: seq<Chunk>): (ts: seq<string>)
    ensures |ts| == |batch| && forall k :: 0 <= k < |batch| ==> ts[k] == batch[k].content
  {
    seq(|batch|, k requires 0 <= k < |batch| => batch[k].content)
  }

  /** `zip(batch, response.data)`: as many records as the shorter list. */
  function Zip(batch: seq<Chunk>, vectors: seq<seq<real>>): (rs: seq<EmbeddingRecord>)
    ensures |rs| == if |batch| <= |vectors| then |batch| else |vectors|
    ensures forall k :: 0 <= k < |rs| ==> rs[k] == EmbeddingRecord(batch[k], vectors[k])
  {
    var n := if |batch| <= |vectors| then |batch| else |vectors|;
    seq(n, k requires 0 <= k < n => EmbeddingRecord(batch[k], vectors[k]))
  }

  /** The records produced for the batches `bs`, in order. */
  function Records(bs: seq<seq<Chunk>>, provider: seq<string> -> seq<seq<real>>): seq<EmbeddingRecord> {
    if bs == [] then []
    else
      var last := bs[|bs| - 1];
      Records(bs[..|bs| - 1], provider) + Zip(last, provider(Texts(last)))
  }

  /** The text lists sent for the batches `bs`, one request per batch. */
  function Requests(bs: seq<seq<Chunk>>): (rs: seq<seq<string>>)
    ensures |rs| == |bs| && forall k :: 0 <= k < |bs| ==> rs[k] == Texts(bs[k])
  {
    seq(|bs|, k requires 0 <= k < |bs| => Texts(bs[k]))
  }

  /** What `embed_chunks` returns once a client is available. */
  function Embedded(chunks: seq<Chunk>, batchSize: int, provider: seq<string> -> seq<seq<real>>): seq<EmbeddingRecord> {
    Records(Batches(Embeddable(chunks), Capacity(batchSize)), provider)
  }

  /** Every piece holds `size` elements. */
  predicate Full<T>(bs: seq<seq<T>>, size: nat) {
    forall k :: 0 <= k < |bs| ==> |bs[k]| == size
  }

  /** The chunks the records hold, in order. */
  function Sources(rs: seq<EmbeddingRecord>): (cs: seq<Chunk>)
    ensures |cs| == |rs| && forall k :: 0 <= k < |rs| ==> cs[k] == rs[k].chunk
  {
    seq(|rs|, k requires 0 <= k < |rs| => rs[k].chunk)
  }

  /** Every batch is non-empty and holds at most `size` elements, and all but
      the last hold exactly `size`. */
  lemma {:induction false} BatchesBounded<T>(s: seq<T>, size: nat)
    requires size > 0
    ensures var bs := Batches(s, size);
      (forall k :: 0 <= k < |bs| ==> 0 < |bs[k]| <= size) &&
      (forall k :: 0 <= k < |bs| - 1 ==> |bs[k]| == size)
  {
    if s != [] && |s| > size {
      BatchesBounded(s[size..], size);
      var bs := Batches(s, size);
      assert bs == [s[..size]] + Batches(s[size..], size);
      assert forall k :: 1 <= k < |bs| ==> bs[k] == Batches(s[size..], size)[k - 1];
    }
  }

  /** Batching loses, repeats and reorders nothing. */
  lemma {:induction false} BatchesFlatten<T>(s: seq<T>, size: nat)
    requires size > 0
    ensures Flatten(Batches(s, size)) == s
  {
    if s != [] && |s| > size {
      BatchesFlatten(s[size..], size);
      var bs := Batches(s, size);
      assert bs[1..] == Batches(s[size..], size);
      assert s == s[..size] + s[size..];
    } else if s != [] {
      assert Batches(s, size)[1..] == [];
    }
  }

  /** Full pieces of `size` elements followed by at most `size` more
      elements are cut back into the same pieces: the buffer flushed at each
      point is exactly the next batch. */
  lemma {:induction false} BatchesOfFull<T>(bs: seq<seq<T>>, t: seq<T>, size: nat)
    requires size > 0 && |t| <= size
    requires Full(bs, size)
    ensures Batches(Flatten(bs) + t, size) == bs + (if t == [] then [] else [t])
  {
    var u := Flatten(bs) + t;
    if bs == [] {
      assert u == t;
    } else {
      var rest := Flatten(bs[1..]);
      assert u == bs[0] + (rest + t);
      if |u| <= size {
        assert rest + t == [];
        assert bs == [bs[0]];
      } else {
        assert u[..size] == bs[0];
        assert u[size..] == rest + t;
        BatchesOfFull(bs[1..], t, size);
        assert bs == [bs[0]] + bs[1..];
      }
    }
  }

  lemma RecordsSnoc(bs: seq<seq<Chunk>>, b: seq<Chunk>, provider: seq<string> -> seq<seq<real>>)
    ensures Records(bs + [b], provider) == Records(bs, provider) + Zip(b, provider(Texts(b)))
    ensures Requests(bs + [b]) == Requests(bs) + [Texts(b)]
  {
    assert (bs + [b])[..|bs|] == bs;
  }

  /** Records come out in input order and only for chunks with text; the
      zip means a short answer from the endpoint can drop records. */
  lemma {:induction false} RecordsFollowBatches(bs: seq<seq<Chunk>>, provider: seq<string> -> seq<seq<real>>)
    ensures |Records(bs, provider)| <= |Flatten(bs)|
    ensures (forall ts :: |provider(ts)| == |ts|) ==> Sources(Records(bs, provider)) == Flatten(bs)
  {
    if bs != [] {
      var init := bs[..|bs| - 1];
      var last := bs[|bs| - 1];
      RecordsFollowBatches(init, provider);
      FlattenSnoc(init, last);
      assert bs == init + [last];
      var z := Zip(last, provider(Texts(last)));
      if forall ts :: |provider(ts)| == |ts| {
        assert |provider(Texts(last))| == |Texts(last)|;
        assert Sources(Records(init, provider) + z) == Sources(Records(init, provider)) + Sources(z);
        assert Sources(z) == last;
      }
    }
  }

  lemma {:induction false} FlattenSnoc<T>(ss: seq<seq<T>>, s: seq<T>)
    ensures Flatten(ss + [s]) == Flatten(ss) + s
  {
    if ss != [] {
      FlattenSnoc(ss[1..], s);
      assert (ss + [s])[1..] == ss[1..] + [s];
    }
  }

  /** One record per chunk with text, in input order, holding that very chunk,
      as long as the endpoint returns one vector per text; never more records
      than chunks with text. */
  lemma EmbeddedChunks(chunks: seq<Chunk>, batchSize: int, provider: seq<string> -> seq<seq<real>>)
    ensures |Embedded(chunks, batchSize, provider)| <= |Embeddable(chunks)|
    ensures forall k :: 0 <= k < |Embedded(chunks, batchSize, provider)| ==>
      HasText(Embedded(chunks, batchSize, provider)[k].chunk)
    ensures (forall ts :: |provider(ts)| == |ts|) ==>
      Sources(Embedded(chunks, batchSize, provider)) == Embeddable(chunks)
  {
    var kept := Embeddable(chunks);
    var bs := Batches(kept, Capacity(batchSize));
    BatchesFlatten(kept, Capacity(batchSize));
    RecordsFollowBatches(bs, provider);
    RecordsFromInput(bs, provider);
  }

  /** Every record holds a chunk of one of the batches. */
  lemma {:induction false} RecordsFromInput(bs: seq<seq<Chunk>>, provider: seq<string> -> seq<seq<real>>)
    ensures forall k :: 0 <= k < |Records(bs, provider)| ==> Records(bs, provider)[k].chunk in Flatten(bs)
  {
    if bs != [] {
      var init := bs[..|bs| - 1];
      var last := bs[|bs| - 1];
      RecordsFromInput(init, provider);
      FlattenSnoc(init, last);
      assert bs == init + [last];
      var z := Zip(last, provider(Texts(last)));
      var r := Records(bs, provider);
      forall k | 0 <= k < |r| ensures r[k].chunk in Flatten(bs) {
        if k >= |Records(init, provider)| {
          assert r[k] == z[k - |Records(init, provider)|];
        } else {
          assert r[k] == Records(init, provider)[k];
        }
      }
    }
  }

  /** Each record carries the vector of its own chunk's text when the
      endpoint embeds texts one by one. */
  lemma {:induction false} RecordsCarryVectors(bs: seq<seq<Chunk>>, provider: seq<string> -> seq<seq<real>>,
                                             embed: string -> seq<real>)
    requires forall ts :: provider(ts) == seq(|ts|, k requires 0 <= k < |ts| => embed(ts[k]))
    ensures forall k :: 0 <= k < |Records(bs, provider)| ==>
      Records(bs, provider)[k].vector == embed(Records(bs, provider)[k].chunk.content)
  {
    if bs != [] {
      var init := bs[..|bs| - 1];
      var last := bs[|bs| - 1];
      RecordsCarryVectors(init, provider, embed);
      var vs := provider(Texts(last));
      var z := Zip(last, vs);
      var r := Records(bs, provider);
      forall k | 0 <= k < |r| ensures r[k].vector == embed(r[k].chunk.content) {
        if k >= |Records(init, provider)| {
          var j := k - |Records(init, provider)|;
          assert r[k] == z[j] == EmbeddingRecord(last[j], vs[j]);
        } else {
          assert r[k] == Records(init, provider)[k];
        }
      }
    }
  }

  /** Each request holds between 1 and `max(batch_size, 1)` texts: an empty
      batch is never sent. Together the requests hold the texts of the chunks
      with text, in order. */
  lemma RequestsBounded(chunks: seq<Chunk>, batchSize: int)
    ensures var rs := Requests(Batches(Embeddable(chunks), Capacity(batchSize)));
      forall k :: 0 <= k < |rs| ==> 0 < |rs[k]| <= Capacity(batchSize) && (batchSize >= 1 ==> |rs[k]| <= batchSize)
    ensures Flatten(Batches(Embeddable(chunks), Capacity(batchSize))) == Embeddable(chunks)
  {
    BatchesBounded(Embeddable(chunks), Capacity(batchSize));
    BatchesFlatten(Embeddable(chunks), Capacity(batchSize));
  }

  /** One more chunk of input adds it to the embeddable chunks when it has text. */
  lemma EmbeddableStep(chunks: seq<Chunk>, i: nat)
    requires i < |chunks|
    ensures Filter(chunks[..i + 1], HasText) ==
      if HasText(chunks[i]) then Filter(chunks[..i], HasText) + [chunks[i]] else Filter(chunks[..i], HasText)
  {
    assert chunks[..i + 1] == chunks[..i] + [chunks[i]];
  }

  /** An OpenAI client object. */
  class OpenAIHandle {
    const apiKey: string

    constructor (apiKey: string)
      ensures this.apiKey == apiKey
    {
      this.apiKey := apiKey;
    }
  }

  /** The module state of embedding.py: the configured key, the endpoint,
      and the cached `_openai_client`. */
  class EmbeddingModule {
    const apiKey: string
    /** What the embeddings endpoint returns for a list of texts. */
    const provider: seq<string> -> seq<seq<real>>
    var cached: Option<OpenAIHandle>
    /** The lists of texts sent to the endpoint, in order. */
    ghost var requests: seq<seq<string>>

    constructor (apiKey: string, provider: seq<string> -> seq<seq<real>>)
      ensures this.apiKey == apiKey && this.provider == provider
      ensures cached == None && requests == []
    {
      this.apiKey := apiKey;
      this.provider := provider;
      cached := None;
      requests := [];
    }

    /** `_client`: the cached client when there is one; otherwise a missing
        key fails, and a new client is made and cached. */
    method Client() returns (r: Result<OpenAIHandle, string>)
      modifies this
      ensures old(cached).Some? ==> r == Success(old(cached).value) && cached == old(cached)
      ensures old(cached).None? && apiKey == "" ==> r == Failure(MissingKey) && cached == None
      ensures old(cached).None? && apiKey != "" ==>
        r.Success? && fresh(r.value) && r.value.apiKey == apiKey && cached == Some(r.value)
      ensures requests == old(requests)
    {
      if cached.Some? {
        return Success(cached.value);
      }
      if apiKey == "" {
        return Failure(MissingKey);
      }
      var client := new OpenAIHandle(apiKey);
      cached := Some(client);
      return Success(client);
    }

    /** `_flush_batch`: nothing for an empty buffer, otherwise one request
        and the zip of the buffer with the answer. */
    method Flush(batch: seq<Chunk>, ghost sent: seq<seq<Chunk>>, ghost start: seq<seq<string>>)
      returns (part: seq<EmbeddingRecord>)
      requires requests == start + Requests(sent)
      modifies this
      ensures batch == [] ==> part == [] && requests == old(requests)
      ensures batch != [] ==> part == Zip(batch, provider(Texts(batch))) && requests == old(requests) + [Texts(batch)]
      ensures batch != [] ==> Records(sent, provider) + part == Records(sent + [batch], provider)
      ensures batch != [] ==> requests == start + Requests(sent + [batch])
      ensures cached == old(cached)
    {
      if batch == [] {
        return [];
      }
      var texts := Texts(batch);
      requests := requests + [texts];
      var vectors := provider(texts);
      part := Zip(batch, vectors);
      RecordsSnoc(sent, batch, provider);
      AppendAssoc(start, Requests(sent), [texts]);
    }

    /** `embed_chunks`: fails only when no client can be had; otherwise the
        records of the batches of the chunks with text, one request per
        batch. */
    method EmbedChunks(chunks: seq<Chunk>, batchSize: int) returns (r: Result<seq<EmbeddingRecord>, string>)
      modifies this
      ensures r.Failure? <==> old(cached).None? && apiKey == ""
      ensures r.Failure? ==> r.error == MissingKey && requests == old(requests)
      ensures r.Success? ==> r.value == Embedded(chunks, batchSize, provider)
      ensures r.Success? ==>
        requests == old(requests) + Requests(Batches(Embeddable(chunks), Capacity(batchSize)))
      ensures r.Success? ==> cached.Some? && (old(cached).Some? ==> cached == old(cached))
    {
      var client := Client();
      if client.Failure? {
        return Failure(client.error);
      }
      var records := SendInBatches(chunks, batchSize);
      return Success(records);
    }

    /** `batch.append(chunk)` followed by a flush when the buffer is full. */
    method Add(c: Chunk, batchSize: int, batch: seq<Chunk>, records: seq<EmbeddingRecord>,
               ghost sent: seq<seq<Chunk>>, ghost start: seq<seq<string>>)
      returns (batch': seq<Chunk>, records': seq<EmbeddingRecord>, ghost sent': seq<seq<Chunk>>)
      requires |batch| < Capacity(batchSize) && Full(sent, Capacity(batchSize))
      requires records == Records(sent, provider) && requests == start + Requests(sent)
      modifies this
      ensures Flatten(sent') + batch' == Flatten(sent) + batch + [c]
      ensures |batch'| < Capacity(batchSize) && Full(sent', Capacity(batchSize))
      ensures records' == Records(sent', provider) && requests == start + Requests(sent')
      ensures cached == old(cached)
    {
      batch' := batch + [c];
      records' := records;
      sent' := sent;
      if |batch'| >= batchSize {
        var part := Flush(batch', sent, start);
        FlattenSnoc(sent, batch');
        AppendAssoc(Flatten(sent), batch, [c]);
        records' := records + part;
        sent' := sent + [batch'];
        batch' := [];
      }
    }

    /** The loop of `embed_chunks`: a chunk with text joins the buffer, a
        full buffer is flushed, and what is left is flushed at the end. */
    method SendInBatches(chunks: seq<Chunk>, batchSize: int) returns (records: seq<EmbeddingRecord>)
      modifies this
      ensures records == Records(Batches(Embeddable(chunks), Capacity(batchSize)), provider)
      ensures requests == old(requests) + Requests(Batches(Embeddable(chunks), Capacity(batchSize)))
      ensures cached == old(cached)
    {
      ghost var start := requests;
      records := [];
      var batch: seq<Chunk> := [];
      ghost var sent: seq<seq<Chunk>> := [];
      for i := 0 to |chunks|
        invariant Flatten(sent) + batch == Filter(chunks[..i], HasText)
        invariant |batch| < Capacity(batchSize) && Full(sent, Capacity(batchSize))
        invariant records == Records(sent, provider)
        invariant requests == start + Requests(sent)
        invariant cached == old(cached)
      {
        EmbeddableStep(chunks, i);
        if HasText(chunks[i]) {
          batch, records, sent := Add(chunks[i], batchSize, batch, records, sent, start);
        }
      }
      assert chunks[..|chunks|] == chunks;
      records := FlushRest(Embeddable(chunks), batchSize, batch, records, sent, start);
    }

    /** The last `_flush_batch()` of `embed_chunks`: what is left in the
        buffer after the full batches is sent, unless nothing is left. */
    method FlushRest(kept: seq<Chunk>, batchSize: int, batch: seq<Chunk>, records: seq<EmbeddingRecord>,
                     ghost sent: seq<seq<Chunk>>, ghost start: seq<seq<string>>)
      returns (all: seq<EmbeddingRecord>)
      requires Flatten(sent) + batch == kept
      requires |batch| < Capacity(batchSize) && Full(sent, Capacity(batchSize))
      requires records == Records(sent, provider) && requests == start + Requests(sent)
      modifies this
      ensures all == Records(Batches(kept, Capacity(batchSize)), provider)
      ensures requests == start + Requests(Batches(kept, Capacity(batchSize)))
      ensures cached == old(cached)
    {
      BatchesOfFull(sent, batch, Capacity(batchSize));
      var part := Flush(batch, sent, start);
      if batch == [] {
        assert records + part == records && sent + [] == sent;
      }
      all := records + part;
    }
  }
}
