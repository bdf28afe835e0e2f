/** The retriever of the backend (backend/src/services/retriever.py): a
    vector-index query, a fetch of the matching chunk documents from the
    chunks collection, and a join that keeps the index's order and writes each
    match's score into its document in place.

    The vector index is the function `search` (the matches returned for an
    embedding and a `top_k`), the chunks collection is the sequence of its
    stored records, in the order a `find` returns them. A fetched document is
    a fresh `ChunkDoc` object, as each `find` builds new dictionaries. */
module Retriever {
  import opened Wrappers
  import opened Lists
  import opened Models

  const DefaultTopK: nat := 5
  const MissingKey := "PINECONE_API_KEY is required"

  /** One entry of the index response's `matches` list; `None` is a missing score. */
  datatype Match = Match(id: string, score: Option<real>)

  /** `match.get("score", 0) > 0`. */
  predicate Positive(m: Match) {
    m.score.GetOr(0.0) > 0.0
  }

  /** The ids sent to the chunks collection: those of the positive matches, in order. */
  function PositiveIds(ms: seq<Match>): (ids: seq<string>)
    ensures |ids| <= |ms|
    ensures forall x :: x in ids <==> exists k | 0 <= k < |ms| :: ms[k].id == x && Positive(ms[k])
  {
    if ms == [] then [] else
      var init := ms[..|ms| - 1];
      var m := ms[|ms| - 1];
      assert ms == init + [m];
      var r := PositiveIds(init);
      assert forall k | 0 <= k < |init| :: ms[k] == init[k];
      if Positive(m) then r + [m.id] else r
  }

  /** A stored record the query `{"chunk_id": {"$in": ids}}` selects. */
  predicate Wanted(r: Passage, ids: seq<string>) {
    r.chunkId.Some? && r.chunkId.value in ids
  }

  function WantedBy(ids: seq<string>): Passage -> bool {
    r => Wanted(r, ids)
  }

  /** What `fetch_chunks(ids)` returns, as values. */
  function Fetched(records: seq<Passage>, ids: seq<string>): seq<Passage> {
    Filter(records, WantedBy(ids))
  }

  /** `{doc.get("chunk_id"): doc for doc in documents}`: a later document
      replaces an earlier one with the same id. */
  function KeyMap(docs: seq<Passage>): (m: map<Option<string>, Passage>)
    ensures forall x :: x in m ==> m[x].chunkId == x && m[x] in docs
    ensures forall k :: 0 <= k < |docs| ==> docs[k].chunkId in m
  {
    if docs == [] then map[] else
      var init := docs[..|docs| - 1];
      var d := docs[|docs| - 1];
      assert docs == init + [d];
      KeyMap(init)[d.chunkId := d]
  }

  /** The score a document ends with after the matches `ms` were joined in:
      that of the last match with its id, or its own when there is none. */
  function LastScoreOr(ms: seq<Match>, x: Option<string>, own: Option<real>): Option<real> {
    if ms == [] then own
    else if Some(ms[|ms| - 1].id) == x then ms[|ms| - 1].score
    else LastScoreOr(ms[..|ms| - 1], x, own)
  }

  /** The join, as values: one entry per match whose id was fetched, in match
      order, each the fetched document carrying its final score. */
  function JoinFrom(ms: seq<Match>, km: map<Option<string>, Passage>, all: seq<Match>): (r: seq<Passage>)
    requires forall x :: x in km ==> km[x].chunkId == x
    ensures |r| <= |ms|
    ensures forall k :: 0 <= k < |r| ==> (r[k].chunkId in km &&
      r[k] == km[r[k].chunkId].(score := LastScoreOr(all, r[k].chunkId, km[r[k].chunkId].score)))
  {
    if ms == [] then [] else
      var init := JoinFrom(ms[..|ms| - 1], km, all);
      var key := Some(ms[|ms| - 1].id);
      if key in km then
        var d := km[key];
        init + [d.(score := LastScoreOr(all, key, d.score))]
      else init
  }

  /** What `query` returns for the matches `ms` over the stored records. */
  function Retrieved(ms: seq<Match>, records: seq<Passage>): seq<Passage> {
    JoinFrom(ms, KeyMap(Fetched(records, PositiveIds(ms))), ms)
  }

  function ChunkIds(ps: seq<Passage>): (r: seq<Option<string>>)
    ensures |r| == |ps| && forall k :: 0 <= k < |ps| ==> r[k] == ps[k].chunkId
  {
    seq(|ps|, k requires 0 <= k < |ps| => ps[k].chunkId)
  }

  function MatchKeys(ms: seq<Match>): (r: seq<Option<string>>)
    ensures |r| == |ms| && forall k :: 0 <= k < |ms| ==> r[k] == Some(ms[k].id)
  {
    seq(|ms|, k requires 0 <= k < |ms| => Some(ms[k].id))
  }

  /** The output follows the index's order: its ids are the match ids whose
      documents were fetched, in match order and with their repetitions. */
  function InMap(km: map<Option<string>, Passage>): Option<string> -> bool {
    x => x in km
  }

  lemma {:induction false} JoinFollowsMatches(ms: seq<Match>, km: map<Option<string>, Passage>, all: seq<Match>)
    requires forall x :: x in km ==> km[x].chunkId == x
    ensures ChunkIds(JoinFrom(ms, km, all)) == Filter(MatchKeys(ms), InMap(km))
  {
    if ms != [] {
      var init := ms[..|ms| - 1];
      var key := Some(ms[|ms| - 1].id);
      JoinFollowsMatches(init, km, all);
      var keys := MatchKeys(ms);
      assert keys[..|ms| - 1] == MatchKeys(init);
      assert keys[|ms| - 1] == key;
      var j := JoinFrom(init, km, all);
      if key in km {
        var d := km[key];
        var e := d.(score := LastScoreOr(all, key, d.score));
        assert ChunkIds(j + [e]) == ChunkIds(j) + [key];
      }
    }
  }

  /** The output never has more entries than there are matches, every entry
      is a stored record whose id was among the positive matches' ids, and
      the order is that of the matches. */
  lemma RetrievedOrder(ms: seq<Match>, records: seq<Passage>)
    ensures ChunkIds(Retrieved(ms, records)) ==
      Filter(MatchKeys(ms), InMap(KeyMap(Fetched(records, PositiveIds(ms)))))
  {
    JoinFollowsMatches(ms, KeyMap(Fetched(records, PositiveIds(ms))), ms);
  }

  /** Every returned entry is a stored record, apart from its score, whose id
      was among the positive matches' ids. */
  lemma RetrievedWasFetched(ms: seq<Match>, records: seq<Passage>)
    ensures forall k :: 0 <= k < |Retrieved(ms, records)| ==>
      var p := Retrieved(ms, records)[k];
      Wanted(p, PositiveIds(ms)) && exists j | 0 <= j < |records| :: records[j] == p.(score := records[j].score)
  {
    var km := KeyMap(Fetched(records, PositiveIds(ms)));
    var r := Retrieved(ms, records);
    forall k | 0 <= k < |r|
      ensures Wanted(r[k], PositiveIds(ms))
      ensures exists j | 0 <= j < |records| :: records[j] == r[k].(score := records[j].score)
    {
      var d := km[r[k].chunkId];
      var f := Fetched(records, PositiveIds(ms));
      assert d in f;
      var i :| 0 <= i < |f| && f[i] == d;
      assert WantedBy(PositiveIds(ms))(f[i]);
      var j :| 0 <= j < |records| && records[j] == d;
      assert records[j] == r[k].(score := records[j].score);
    }
  }

  /** A document's score is the one of the last match with its id; in
      particular, with no repeated ids, each match's own score. */
  lemma {:induction false} LastScoreOfLast(ms: seq<Match>, j: nat, own: Option<real>)
    requires j < |ms|
    requires forall i :: j < i < |ms| ==> ms[i].id != ms[j].id
    ensures LastScoreOr(ms, Some(ms[j].id), own) == ms[j].score
  {
    if j < |ms| - 1 {
      LastScoreOfLast(ms[..|ms| - 1], j, own);
    }
  }

  /** A id none of whose matches has a positive score is never returned. */
  lemma NonPositiveNotReturned(ms: seq<Match>, records: seq<Passage>, x: string)
    requires forall k :: 0 <= k < |ms| && ms[k].id == x ==> !Positive(ms[k])
    ensures forall k :: 0 <= k < |Retrieved(ms, records)| ==> Retrieved(ms, records)[k].chunkId != Some(x)
  {
    RetrievedWasFetched(ms, records);
  }

  /** When fetched documents share an id, the join uses the last of them. */
  lemma {:induction false} KeyMapLastWins(docs: seq<Passage>, k: nat)
    requires k < |docs|
    requires forall j :: k < j < |docs| ==> docs[j].chunkId != docs[k].chunkId
    ensures KeyMap(docs)[docs[k].chunkId] == docs[k]
  {
    if k < |docs| - 1 {
      KeyMapLastWins(docs[..|docs| - 1], k);
    }
  }

  /** A fetched chunk document. The stored fields never change; `score` is
      the field `query` writes. */
  class ChunkDoc {
    const record: Passage
    var score: Option<real>

    constructor (record: Passage)
      ensures this.record == record && score == record.score
    {
      this.record := record;
      score := record.score;
    }

    /** The document as a dictionary would show it now. */
    function View(): Passage
      reads this
    {
      record.(score := score)
    }
  }

  /** What `query` returns, as values, for an index `search` over the
      stored records `chunks`. */
  function QueryResult(search: (seq<real>, nat) -> seq<Match>, chunks: seq<Passage>,
                       embedding: seq<real>, topK: nat): seq<Passage> {
    if embedding == [] then [] else Retrieved(search(embedding, topK), chunks)
  }

  /** The documents as their dictionaries show them now. */
  function Views(ds: seq<ChunkDoc>): (ps: seq<Passage>)
    reads set k | 0 <= k < |ds| :: ds[k]
    ensures |ps| == |ds| && forall k :: 0 <= k < |ds| ==> ps[k] == ds[k].View()
  {
    seq(|ds|, k requires 0 <= k < |ds| reads set j | 0 <= j < |ds| :: ds[j] => ds[k].View())
  }

  /** Entries with the same id are one and the same object. */
  predicate OneObjectPerId(ds: seq<ChunkDoc>) {
    forall i, j :: 0 <= i < |ds| && 0 <= j < |ds| && ds[i].record.chunkId == ds[j].record.chunkId ==> ds[i] == ds[j]
  }

  function Records(ds: seq<ChunkDoc>): (r: seq<Passage>)
    ensures |r| == |ds| && forall k :: 0 <= k < |ds| ==> r[k] == ds[k].record
  {
    seq(|ds|, k requires 0 <= k < |ds| => ds[k].record)
  }

  /** `chunk_map`, on the document objects. */
  function ObjMap(ds: seq<ChunkDoc>): (m: map<Option<string>, ChunkDoc>)
    ensures forall x :: x in m ==> m[x].record.chunkId == x && m[x] in ds
    ensures forall k :: 0 <= k < |ds| ==> ds[k].record.chunkId in m
  {
    if ds == [] then map[] else
      var init := ds[..|ds| - 1];
      var d := ds[|ds| - 1];
      assert ds == init + [d];
      ObjMap(init)[d.record.chunkId := d]
  }

  lemma {:induction false} ObjMapRecords(ds: seq<ChunkDoc>)
    ensures ObjMap(ds).Keys == KeyMap(Records(ds)).Keys
    ensures forall x :: x in ObjMap(ds) ==> ObjMap(ds)[x].record == KeyMap(Records(ds))[x]
  {
    if ds != [] {
      ObjMapRecords(ds[..|ds| - 1]);
      assert Records(ds)[..|ds| - 1] == Records(ds[..|ds| - 1]);
    }
  }

  /** The `ordered` list after the matches `ms`: the same object each time an
      id repeats. */
  function JoinObjs(ms: seq<Match>, cm: map<Option<string>, ChunkDoc>): (r: seq<ChunkDoc>)
    requires forall x :: x in cm ==> cm[x].record.chunkId == x
    ensures forall k :: 0 <= k < |r| ==> r[k].record.chunkId in cm && r[k] == cm[r[k].record.chunkId]
  {
    if ms == [] then [] else
      var init := JoinObjs(ms[..|ms| - 1], cm);
      var key := Some(ms[|ms| - 1].id);
      if key in cm then init + [cm[key]] else init
  }

  lemma {:induction false} JoinObjsMatchesJoin(ms: seq<Match>, cm: map<Option<string>, ChunkDoc>,
                                               km: map<Option<string>, Passage>, all: seq<Match>)
    requires forall x :: x in cm ==> cm[x].record.chunkId == x
    requires forall x :: x in km ==> km[x].chunkId == x
    requires cm.Keys == km.Keys
    ensures |JoinObjs(ms, cm)| == |JoinFrom(ms, km, all)|
    ensures forall k :: 0 <= k < |JoinObjs(ms, cm)| ==>
      JoinObjs(ms, cm)[k].record.chunkId == JoinFrom(ms, km, all)[k].chunkId
  {
    if ms != [] {
      JoinObjsMatchesJoin(ms[..|ms| - 1], cm, km, all);
    }
  }

  /** Once every document carries its final score, the objects of the join
      show exactly the join computed on values. */
  lemma JoinViews(ms: seq<Match>, cm: map<Option<string>, ChunkDoc>, km: map<Option<string>, Passage>)
    requires forall x :: x in cm ==> cm[x].record.chunkId == x
    requires cm.Keys == km.Keys && forall x :: x in cm ==> cm[x].record == km[x]
    requires forall x :: x in cm ==> cm[x].score == LastScoreOr(ms, x, cm[x].record.score)
    ensures |JoinObjs(ms, cm)| == |JoinFrom(ms, km, ms)|
    ensures forall k :: 0 <= k < |JoinObjs(ms, cm)| ==> JoinObjs(ms, cm)[k].View() == JoinFrom(ms, km, ms)[k]
  {
    JoinObjsMatchesJoin(ms, cm, km, ms);
    var objs := JoinObjs(ms, cm);
    var vals := JoinFrom(ms, km, ms);
    forall k | 0 <= k < |objs| ensures objs[k].View() == vals[k] {
      var x := objs[k].record.chunkId;
      assert objs[k] == cm[x] && x == vals[k].chunkId;
    }
  }

  class RetrieverService {
    /** The index's `query(vector, top_k)`, reduced to its `matches` list. */
    const search: (seq<real>, nat) -> seq<Match>
    /** The chunks collection. */
    const chunks: seq<Passage>
    ghost var indexCalls: nat
    ghost var findCalls: nat

    constructor (search: (seq<real>, nat) -> seq<Match>, chunks: seq<Passage>)
      ensures this.search == search && this.chunks == chunks
      ensures indexCalls == 0 && findCalls == 0
    {
      this.search := search;
      this.chunks := chunks;
      indexCalls := 0;
      findCalls := 0;
    }

    /** `RetrieverService()`: raises `ValueError` without a Pinecone key. */
    static method Connect(apiKey: string, search: (seq<real>, nat) -> seq<Match>, chunks: seq<Passage>)
      returns (r: Result<RetrieverService, string>)
      ensures r.Failure? <==> apiKey == ""
      ensures r.Failure? ==> r.error == MissingKey
      ensures r.Success? ==> fresh(r.value) && r.value.search == search && r.value.chunks == chunks
      ensures r.Success? ==> r.value.indexCalls == 0 && r.value.findCalls == 0
    {
      if apiKey == "" {
        return Failure(MissingKey);
      }
      var service := new RetrieverService(search, chunks);
      return Success(service);
    }

    /** `fetch_chunks`: no request for an empty id list; otherwise fresh
        documents for the stored records whose id is listed, in stored order. */
    method FetchChunks(ids: seq<string>) returns (docs: seq<ChunkDoc>)
      modifies this
      ensures Records(docs) == Fetched(chunks, ids)
      ensures forall k :: 0 <= k < |docs| ==> fresh(docs[k]) && docs[k].score == docs[k].record.score
      ensures ids == [] ==> docs == []
      ensures findCalls == old(findCalls) + (if ids == [] then 0 else 1)
      ensures indexCalls == old(indexCalls)
    {
      if ids == [] {
        FilterNone(chunks, WantedBy(ids));
        return [];
      }
      findCalls := findCalls + 1;
      docs := [];
      for i := 0 to |chunks|
        invariant Records(docs) == Filter(chunks[..i], WantedBy(ids))
        invariant forall k :: 0 <= k < |docs| ==> fresh(docs[k]) && docs[k].score == docs[k].record.score
        invariant findCalls == old(findCalls) + 1 && indexCalls == old(indexCalls)
      {
        FilterSnoc(chunks, i, WantedBy(ids));
        if Wanted(chunks[i], ids) {
          var d := new ChunkDoc(chunks[i]);
          docs := docs + [d];
        }
      }
      assert chunks[..|chunks|] == chunks;
    }

    /** `query`: an empty embedding returns nothing without touching the
        index. Otherwise the documents of the positive matches are fetched and
        joined in match order; each joined document's score is overwritten,
        so a document whose id repeats is one object carrying the score of the
        last match with its id. */
    method Query(embedding: seq<real>, topK: nat) returns (out: seq<ChunkDoc>)
      modifies this
      ensures Views(out) == QueryResult(search, chunks, embedding, topK)
      ensures forall k :: 0 <= k < |out| ==> fresh(out[k])
      ensures OneObjectPerId(out)
      ensures embedding == [] ==> out == [] && indexCalls == old(indexCalls) && findCalls == old(findCalls)
      ensures embedding != [] ==> indexCalls == old(indexCalls) + 1
      ensures embedding != [] ==> findCalls == old(findCalls) + (if PositiveIds(search(embedding, topK)) == [] then 0 else 1)
    {
      if embedding == [] {
        return [];
      }
      indexCalls := indexCalls + 1;
      var matches := search(embedding, topK);
      var ids := PositiveIds(matches);
      var docs := FetchChunks(ids);
      out := JoinScores(matches, docs);
      assert Views(out) == Retrieved(matches, chunks);
    }

    /** The join loop of `query`: walks the matches in order, appends the
        fetched document of each match whose id is in `chunk_map`, and
        overwrites that document's score with the match's. */
    static method JoinScores(matches: seq<Match>, docs: seq<ChunkDoc>) returns (ordered: seq<ChunkDoc>)
      requires forall k :: 0 <= k < |docs| ==> docs[k].score == docs[k].record.score
      modifies set k | 0 <= k < |docs| :: docs[k]
      ensures |ordered| == |JoinFrom(matches, KeyMap(Records(docs)), matches)|
      ensures forall k :: 0 <= k < |ordered| ==>
        ordered[k] in docs && ordered[k].View() == JoinFrom(matches, KeyMap(Records(docs)), matches)[k]
      ensures OneObjectPerId(ordered)
    {
      var cm := ObjMap(docs);
      ghost var km := KeyMap(Records(docs));
      ObjMapRecords(docs);
      ordered := [];
      for i := 0 to |matches|
        invariant ordered == JoinObjs(matches[..i], cm)
        invariant forall x :: x in cm ==> cm[x].score == LastScoreOr(matches[..i], x, cm[x].record.score)
      {
        PrefixSnoc(matches, i);
        ordered := JoinStep(matches[i], cm, matches[..i], ordered);
      }
      assert matches[..|matches|] == matches;
      JoinViews(matches, cm, km);
    }

    /** One turn of the join loop, after the matches `done`: the document
        of the match `m`, when it was fetched, is appended and takes the
        match's score. */
    static method JoinStep(m: Match, cm: map<Option<string>, ChunkDoc>, ghost done: seq<Match>,
                           ordered: seq<ChunkDoc>)
      returns (ordered': seq<ChunkDoc>)
      requires forall x :: x in cm ==> cm[x].record.chunkId == x
      requires ordered == JoinObjs(done, cm)
      requires forall x :: x in cm ==> cm[x].score == LastScoreOr(done, x, cm[x].record.score)
      modifies set x | x in cm :: cm[x]
      ensures ordered' == JoinObjs(done + [m], cm)
      ensures forall x :: x in cm ==> cm[x].score == LastScoreOr(done + [m], x, cm[x].record.score)
    {
      var key := Some(m.id);
      assert (done + [m])[..|done|] == done;
      ordered' := ordered;
      if key in cm {
        var doc := cm[key];
        doc.score := m.score;
        ordered' := ordered + [doc];
      }
    }
  }
}
