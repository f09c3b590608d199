/** The module-level functions of app/services/vector_store.py, the older
    store. Its `SimpleVectorStore` is the class of `SimpleStore` with a
    different filter: `all(metadata.get(k) == v ...)`. Besides the store it
    keeps the process-wide `_document_metadata` dictionary, modelled as the
    class `DocumentRegistry`. As in the newer module, the store and the
    registry are passed in, embeddings come from `embed`, the distance from
    `distance`, and the current time is the string `now` or `uploadedAt`. */
module LegacyVectorStore {
  import opened Wrappers
  import opened Strings
  import opened Sorting
  import opened MetaValues
  import opened StoreState
  import opened SimpleStore
  import opened LegacyChunker
  import VectorStore

  // ---------------------------------------------------------------------
  // the filter
  // ---------------------------------------------------------------------

  /** `all(metadata.get(k) == v for k, v in where.items())`: a missing key
      reads as `None`, and a list is compared as a whole. */
  predicate LegacyMatches(m: Metadata, where: VectorStore.Filter) {
    forall i :: 0 <= i < |where| ==> Get(m, where[i].0) == where[i].1
  }

  function LegacyKeep(where: VectorStore.Filter): Metadata -> bool {
    m => LegacyMatches(m, where)
  }

  /** The two filters agree whenever every filtered key is present and does
      not hold a list. */
  lemma FiltersAgree(m: Metadata, where: VectorStore.Filter)
    requires forall i :: 0 <= i < |where| ==> where[i].0 in m && !m[where[i].0].StrList?
    ensures LegacyMatches(m, where) <==> VectorStore.MatchesFilter(m, where)
  {
    VectorStore.MatchesFilterAll(m, where);
  }

  /** Where they differ: a `None` condition matches a missing key only in
      the older filter, and a list field matches by membership only in the
      newer one. */
  lemma FiltersDiffer(key: string, s: string)
    ensures LegacyMatches(map[], [(key, Null)]) && !VectorStore.MatchesFilter(map[], [(key, Null)])
    ensures var m := map[key := StrList([s])];
      !LegacyMatches(m, [(key, Str(s))]) && VectorStore.MatchesFilter(m, [(key, Str(s))])
  {
    assert [(key, Null)][0] == (key, Null);
    var m := map[key := StrList([s])];
    var w := [(key, Str(s))];
    assert w[0] == (key, Str(s)) && w[1..] == [];
    assert Get(m, key) != Str(s);
    assert VectorStore.FieldMatches(m, key, Str(s));
  }

  // ---------------------------------------------------------------------
  // _document_metadata
  // ---------------------------------------------------------------------

  /** One entry of `_document_metadata`. */
  datatype DocEntry = DocEntry(filename: Value, uploadedAt: Value)

  /** The `_document_metadata` dictionary, keyed by document id. */
  class DocumentRegistry {
    var entries: map<Value, DocEntry>

    constructor()
      ensures entries == map[]
    {
      entries := map[];
    }
  }

  /** One step of `_load_document_metadata`: the first chunk seen for a
      true doc id that is not yet registered records its file name and
      upload time; `None` when the doc id is a list, which cannot be a
      dictionary key. */
  function LoadOne(entries: map<Value, DocEntry>, m: Metadata, now: string): Option<map<Value, DocEntry>> {
    var d := Get(m, "doc_id");
    if !Truthy(d) then Some(entries)
    else if d.StrList? then None
    else if d in entries then Some(entries)
    else Some(entries[d := DocEntry(VectorStore.GetOr(m, "filename", Str("unknown")),
                                    VectorStore.GetOr(m, "uploaded_at", Str(now)))])
  }

  /** The loaded dictionary, and whether the loop ran to the end. */
  function LoadFrom(entries: map<Value, DocEntry>, metas: seq<Metadata>, now: string): (map<Value, DocEntry>, bool)
    decreases |metas|
  {
    if metas == [] then (entries, true)
    else
      var next := LoadOne(entries, metas[0], now);
      if next.None? then (entries, false) else LoadFrom(next.value, metas[1..], now)
  }

  /** Loading keeps every registered entry and registers every true,
      hashable doc id it reaches. */
  lemma {:induction false} LoadFromKeeps(entries: map<Value, DocEntry>, metas: seq<Metadata>, now: string)
    ensures var (loaded, _) := LoadFrom(entries, metas, now);
      forall d :: d in entries ==> d in loaded && loaded[d] == entries[d]
    decreases |metas|
  {
    if metas != [] {
      var next := LoadOne(entries, metas[0], now);
      if next.Some? {
        LoadFromKeeps(next.value, metas[1..], now);
      }
    }
  }

  lemma {:induction false} LoadFromRegisters(entries: map<Value, DocEntry>, metas: seq<Metadata>, now: string)
    requires LoadFrom(entries, metas, now).1
    ensures forall i :: 0 <= i < |metas| && Truthy(Get(metas[i], "doc_id")) ==>
      Get(metas[i], "doc_id") in LoadFrom(entries, metas, now).0
    decreases |metas|
  {
    if metas != [] {
      var next := LoadOne(entries, metas[0], now).value;
      LoadFromRegisters(next, metas[1..], now);
      LoadFromKeeps(next, metas[1..], now);
      forall i | 1 <= i < |metas| && Truthy(Get(metas[i], "doc_id"))
        ensures Get(metas[i], "doc_id") in LoadFrom(entries, metas, now).0
      {
        assert metas[i] == metas[1..][i - 1];
      }
    }
  }

  /** `_load_document_metadata`: registers the documents of the stored
      chunks, keeping entries already there. It returns false when the loop
      raised, with the entries registered before the failing chunk kept. */
  method LoadDocumentMetadata(store: SimpleVectorStore, registry: DocumentRegistry, now: string)
    returns (completed: bool)
    requires store.Valid()
    modifies registry
    ensures (registry.entries, completed)
            == LoadFrom(old(registry.entries), VectorStore.StoredMetadatas(store.order, store.documents, store.metadatas), now)
  {
    var results := store.Get(AnyMetadata, Some(["metadatas"]));
    var metas := if results.metadatas.None? then [] else results.metadatas.value;
    ghost var whole := LoadFrom(registry.entries, metas, now);
    var i := 0;
    while i < |metas|
      invariant i <= |metas| && LoadFrom(registry.entries, metas[i..], now) == whole
    {
      assert metas[i..][0] == metas[i] && metas[i..][1..] == metas[i + 1..];
      var d := Get(metas[i], "doc_id");
      if Truthy(d) {
        if d.StrList? {
          return false;
        }
        if d !in registry.entries {
          registry.entries := registry.entries[d := DocEntry(VectorStore.GetOr(metas[i], "filename", Str("unknown")),
                                                             VectorStore.GetOr(metas[i], "uploaded_at", Str(now)))];
        }
      }
      i := i + 1;
    }
    assert metas[i..] == [];
    completed := true;
  }

  // ---------------------------------------------------------------------
  // index_chunks
  // ---------------------------------------------------------------------

  /** The six metadata fields the older `index_chunks` stores. */
  function LegacyIndexMetadata(c: Chunk, uploadedAt: string): Metadata {
    map[
      "doc_id" := Str(c.metadata.docId),
      "filename" := Str(c.metadata.filename),
      "chunk_id" := Str(c.metadata.chunkId),
      "page_number" := VectorStore.PageNumberValue(c.metadata.pageNumber),
      "chunk_index" := Int(c.metadata.chunkIndex),
      "uploaded_at" := Str(uploadedAt)
    ]
  }

  function LegacyChunkIds(chunks: seq<Chunk>): seq<string> {
    seq(|chunks|, i requires 0 <= i < |chunks| => chunks[i].metadata.chunkId)
  }

  function LegacyChunkTexts(chunks: seq<Chunk>): seq<string> {
    seq(|chunks|, i requires 0 <= i < |chunks| => chunks[i].text)
  }

  function LegacyIndexMetadatas(chunks: seq<Chunk>, uploadedAt: string): seq<Metadata> {
    seq(|chunks|, i requires 0 <= i < |chunks| => LegacyIndexMetadata(chunks[i], uploadedAt))
  }

  /** The loop of the older `index_chunks` that collects ids, texts and
      metadata. */
  method LegacyPrepareRows(chunks: seq<Chunk>, uploadedAt: string)
    returns (ids: seq<string>, texts: seq<string>, metas: seq<Metadata>)
    ensures ids == LegacyChunkIds(chunks) && texts == LegacyChunkTexts(chunks)
    ensures metas == LegacyIndexMetadatas(chunks, uploadedAt)
  {
    ids, texts, metas := [], [], [];
    for i := 0 to |chunks|
      invariant |ids| == i && |texts| == i && |metas| == i
      invariant forall k :: 0 <= k < i ==> ids[k] == chunks[k].metadata.chunkId
      invariant forall k :: 0 <= k < i ==> texts[k] == chunks[k].text
      invariant forall k :: 0 <= k < i ==> metas[k] == LegacyIndexMetadata(chunks[k], uploadedAt)
    {
      ids := ids + [chunks[i].metadata.chunkId];
      texts := texts + [chunks[i].text];
      metas := metas + [LegacyIndexMetadata(chunks[i], uploadedAt)];
    }
  }

  /** The older `index_chunks`: nothing happens for no chunks; otherwise
      the chunks are added to the store and the document is registered
      with the given file name and upload time, replacing an earlier
      entry. */
  method IndexChunks(store: SimpleVectorStore, registry: DocumentRegistry, chunks: seq<Chunk>, docId: string,
                     filename: string, uploadedAt: string, embed: string -> Embedding) returns (n: nat)
    requires store.Valid()
    modifies store, registry
    ensures store.Valid()
    ensures n == |chunks|
    ensures chunks == [] ==> unchanged(store) && unchanged(registry)
    ensures store.order == AddOrder(old(store.order), LegacyChunkIds(chunks))
    ensures store.documents == Assign(old(store.documents), LegacyChunkIds(chunks), LegacyChunkTexts(chunks))
    ensures store.embeddings
            == Assign(old(store.embeddings), LegacyChunkIds(chunks), VectorStore.Embeds(LegacyChunkTexts(chunks), embed))
    ensures store.metadatas == Assign(old(store.metadatas), LegacyChunkIds(chunks), LegacyIndexMetadatas(chunks, uploadedAt))
    ensures chunks != [] ==>
      registry.entries == old(registry.entries)[Str(docId) := DocEntry(Str(filename), Str(uploadedAt))]
  {
    if chunks == [] {
      return 0;
    }
    var ids, texts, metas := LegacyPrepareRows(chunks, uploadedAt);
    store.Add(ids, texts, VectorStore.Embeds(texts, embed), metas);
    registry.entries := registry.entries[Str(docId) := DocEntry(Str(filename), Str(uploadedAt))];
    n := |chunks|;
  }

  /** After indexing, each chunk's id holds the dictionary built from the
      last chunk with that id, so the chunk counts for its document. */
  lemma LegacyIndexedChunkStored(metadatas: map<string, Metadata>, chunks: seq<Chunk>, uploadedAt: string, i: nat)
    requires i < |chunks| && LastOccurrence(LegacyChunkIds(chunks), i)
    ensures var stored := Assign(metadatas, LegacyChunkIds(chunks), LegacyIndexMetadatas(chunks, uploadedAt));
      && chunks[i].metadata.chunkId in stored
      && stored[chunks[i].metadata.chunkId] == LegacyIndexMetadata(chunks[i], uploadedAt)
      && chunks[i].metadata.chunkId in LegacyDocChunks(stored, chunks[i].metadata.docId)
  {
    AssignLast(metadatas, LegacyChunkIds(chunks), LegacyIndexMetadatas(chunks, uploadedAt), i);
  }

  // ---------------------------------------------------------------------
  // get_document_chunk_count, document_exists, delete_document
  // ---------------------------------------------------------------------

  function LegacyDocFilter(docId: string): VectorStore.Filter {
    [("doc_id", Str(docId))]
  }

  /** The document filter accepts exactly the metadata carrying the id. */
  lemma LegacyDocFilterSpec(m: Metadata, docId: string)
    ensures LegacyKeep(LegacyDocFilter(docId))(m) <==> Get(m, "doc_id") == Str(docId)
  {
    assert LegacyDocFilter(docId)[0] == ("doc_id", Str(docId));
  }

  /** The stored ids whose `doc_id` equals the given id. */
  ghost function LegacyDocChunks(metadatas: map<string, Metadata>, docId: string): set<string> {
    set id | id in metadatas && Get(metadatas[id], "doc_id") == Str(docId)
  }

  lemma LegacySelectedDocChunks(order: seq<string>, documents: map<string, string>,
                                embeddings: map<string, Embedding>, metadatas: map<string, Metadata>, docId: string)
    requires Consistent(order, documents, embeddings, metadatas)
    ensures Elems(Selected(order, metadatas, LegacyKeep(LegacyDocFilter(docId)))) == LegacyDocChunks(metadatas, docId)
    ensures |Selected(order, metadatas, LegacyKeep(LegacyDocFilter(docId)))| == |LegacyDocChunks(metadatas, docId)|
  {
    var sel := Selected(order, metadatas, LegacyKeep(LegacyDocFilter(docId)));
    SelectedSpec(order, metadatas, LegacyKeep(LegacyDocFilter(docId)));
    forall id ensures id in Elems(sel) <==> id in LegacyDocChunks(metadatas, docId) {
      assert id in order <==> id in Elems(order);
      if id in metadatas {
        LegacyDocFilterSpec(metadatas[id], docId);
      }
    }
    VectorStore.DistinctCard(sel);
  }

  /** The older `get_document_chunk_count`. */
  method GetDocumentChunkCount(store: SimpleVectorStore, docId: string) returns (count: nat)
    requires store.Valid()
    ensures count == |LegacyDocChunks(store.metadatas, docId)|
  {
    var results := store.Get(LegacyKeep(LegacyDocFilter(docId)), None);
    count := |results.ids|;
    LegacySelectedDocChunks(store.order, store.documents, store.embeddings, store.metadatas, docId);
  }

  /** The older `document_exists`. */
  method DocumentExists(store: SimpleVectorStore, docId: string) returns (b: bool)
    requires store.Valid()
    ensures b <==> exists id :: id in store.metadatas && Get(store.metadatas[id], "doc_id") == Str(docId)
  {
    var count := GetDocumentChunkCount(store, docId);
    b := count > 0;
    if b {
      ghost var id :| id in LegacyDocChunks(store.metadatas, docId);
    } else {
      forall id | id in store.metadatas
        ensures Get(store.metadatas[id], "doc_id") != Str(docId)
      {
        assert id !in LegacyDocChunks(store.metadatas, docId);
      }
    }
  }

  /** The store part of the older `delete_document`: with no chunks it
      returns 0 and changes nothing; otherwise it removes exactly the
      document's chunks and returns how many there were. */
  method DeleteChunks(store: SimpleVectorStore, docId: string) returns (n: nat)
    requires store.Valid()
    modifies store
    ensures store.Valid()
    ensures n == |LegacyDocChunks(old(store.metadatas), docId)|
    ensures n == 0 ==> unchanged(store)
    ensures LegacyDocChunks(store.metadatas, docId) == {}
    ensures store.metadatas == old(store.metadatas) - LegacyDocChunks(old(store.metadatas), docId)
    ensures store.documents == old(store.documents) - LegacyDocChunks(old(store.metadatas), docId)
    ensures store.embeddings == old(store.embeddings) - LegacyDocChunks(old(store.metadatas), docId)
    ensures store.order == Without(old(store.order), LegacyDocChunks(old(store.metadatas), docId))
  {
    var count := GetDocumentChunkCount(store, docId);
    if count == 0 {
      assert LegacyDocChunks(store.metadatas, docId) == {};
      WithoutNothing(store.order);
      return 0;
    }
    LegacySelectedDocChunks(store.order, store.documents, store.embeddings, store.metadatas, docId);
    ghost var gone := LegacyDocChunks(store.metadatas, docId);
    var _ := store.Delete(LegacyKeep(LegacyDocFilter(docId)));
    assert LegacyDocChunks(store.metadatas, docId) == {} by {
      forall id | id in store.metadatas ensures id !in LegacyDocChunks(store.metadatas, docId) {
        assert id !in gone;
      }
    }
    n := count;
  }

  /** The older `delete_document`: `DeleteChunks`, and when there were
      chunks, the document's registry entry is dropped too. */
  method DeleteDocument(store: SimpleVectorStore, registry: DocumentRegistry, docId: string) returns (n: nat)
    requires store.Valid()
    modifies store, registry
    ensures store.Valid()
    ensures n == |LegacyDocChunks(old(store.metadatas), docId)|
    ensures n == 0 ==> unchanged(store) && unchanged(registry)
    ensures n > 0 ==> registry.entries == old(registry.entries) - {Str(docId)}
    ensures LegacyDocChunks(store.metadatas, docId) == {}
    ensures store.metadatas == old(store.metadatas) - LegacyDocChunks(old(store.metadatas), docId)
    ensures store.documents == old(store.documents) - LegacyDocChunks(old(store.metadatas), docId)
    ensures store.embeddings == old(store.embeddings) - LegacyDocChunks(old(store.metadatas), docId)
    ensures store.order == Without(old(store.order), LegacyDocChunks(old(store.metadatas), docId))
  {
    n := DeleteChunks(store, docId);
    if n > 0 && Str(docId) in registry.entries {
      registry.entries := registry.entries - {Str(docId)};
    }
  }

  // ---------------------------------------------------------------------
  // query_chunks
  // ---------------------------------------------------------------------

  /** `{"doc_id": doc_id} if doc_id else None`. */
  function LegacyQueryKeep(docId: Option<string>): Metadata -> bool {
    if VectorStore.Given(docId) then LegacyKeep(LegacyDocFilter(docId.value)) else AnyMetadata
  }

  /** The formatting loop of the older `query_chunks`: one hit per result,
      in the store's order. */
  method FormatAll(r: QueryResult) returns (hits: seq<VectorStore.Hit>)
    requires WellShaped(r)
    ensures hits == VectorStore.Hits(r)
  {
    hits := [];
    for i := 0 to |r.ids|
      invariant hits == VectorStore.Hits(r)[..i]
    {
      hits := hits + [VectorStore.Hit(r.ids[i], r.documents[i], r.metadatas[i], r.distances[i])];
      assert hits == VectorStore.Hits(r)[..i + 1];
    }
  }

  /** What the older `query_chunks` returns for a store's contents and the
      query's embedding `q`. */
  function LegacyQueryChunksOf(order: seq<string>, documents: map<string, string>, embeddings: map<string, Embedding>,
                               metadatas: map<string, Metadata>, q: Embedding, docId: Option<string>, topK: int,
                               distance: (Embedding, Embedding) -> real): seq<VectorStore.Hit>
    requires Elems(order) <= embeddings.Keys
  {
    VectorStore.Hits(QueryOf(order, documents, embeddings, metadatas, q, topK, LegacyQueryKeep(docId), distance))
  }

  /** The older `query_chunks`: the `top_k` chunks nearest to the query,
      of the given document or of all documents when no id is given. */
  method QueryChunks(store: SimpleVectorStore, query: string, docId: Option<string>, topK: int,
                     embed: string -> Embedding, distance: (Embedding, Embedding) -> real)
    returns (hits: seq<VectorStore.Hit>)
    requires store.Valid()
    ensures hits == LegacyQueryChunksOf(store.order, store.documents, store.embeddings, store.metadatas,
                                        embed(query), docId, topK, distance)
  {
    var queryEmbedding := embed(query);
    var results := store.Query(queryEmbedding, topK, LegacyQueryKeep(docId), distance);
    hits := FormatAll(results);
  }

  /** At most `top_k` results. */
  lemma LegacyQueryChunksLength(order: seq<string>, documents: map<string, string>, embeddings: map<string, Embedding>,
                                metadatas: map<string, Metadata>, q: Embedding, docId: Option<string>, topK: int,
                                distance: (Embedding, Embedding) -> real)
    requires Elems(order) <= embeddings.Keys && topK >= 0
    ensures |LegacyQueryChunksOf(order, documents, embeddings, metadatas, q, docId, topK, distance)| <= topK
  {
    RankedLength(order, embeddings, metadatas, q, topK, LegacyQueryKeep(docId), distance);
  }

  /** Every result is a stored chunk, of the requested document when one is
      given, reported with its stored text and metadata and its distance
      from the query. */
  lemma LegacyQueryChunksMembers(order: seq<string>, documents: map<string, string>, embeddings: map<string, Embedding>,
                                 metadatas: map<string, Metadata>, q: Embedding, docId: Option<string>, topK: int,
                                 distance: (Embedding, Embedding) -> real)
    requires Consistent(order, documents, embeddings, metadatas)
    ensures forall h :: h in LegacyQueryChunksOf(order, documents, embeddings, metadatas, q, docId, topK, distance) ==>
      && h.chunkId in metadatas && h.chunkId in documents
      && h.metadata == metadatas[h.chunkId] && h.text == documents[h.chunkId]
      && h.distance == distance(q, embeddings[h.chunkId])
      && (VectorStore.Given(docId) ==> Get(h.metadata, "doc_id") == Str(docId.value))
  {
    var keep := LegacyQueryKeep(docId);
    var r := QueryOf(order, documents, embeddings, metadatas, q, topK, keep, distance);
    var hits := VectorStore.Hits(r);
    if r != NoResults {
      var top := Ranked(order, embeddings, metadatas, q, topK, keep, distance);
      RankedMembers(order, embeddings, metadatas, q, topK, keep, distance);
      forall i | 0 <= i < |hits|
        ensures var h := hits[i];
          && h.chunkId in metadatas && h.chunkId in documents
          && h.metadata == metadatas[h.chunkId] && h.text == documents[h.chunkId]
          && h.distance == distance(q, embeddings[h.chunkId])
          && (VectorStore.Given(docId) ==> Get(h.metadata, "doc_id") == Str(docId.value))
      {
        assert top[i] in top;
        assert top[i].0 in Elems(order);
        if VectorStore.Given(docId) {
          LegacyDocFilterSpec(metadatas[top[i].0], docId.value);
        }
      }
    }
  }

  /** The results come nearest first. */
  lemma LegacyQueryChunksSorted(order: seq<string>, documents: map<string, string>, embeddings: map<string, Embedding>,
                                metadatas: map<string, Metadata>, q: Embedding, docId: Option<string>, topK: int,
                                distance: (Embedding, Embedding) -> real)
    requires Elems(order) <= embeddings.Keys
    ensures VectorStore.SortedByDistance(LegacyQueryChunksOf(order, documents, embeddings, metadatas, q, docId,
                                                             topK, distance))
  {
    RankedSorted(order, embeddings, metadatas, q, topK, LegacyQueryKeep(docId), distance);
  }

  // ---------------------------------------------------------------------
  // list_documents
  // ---------------------------------------------------------------------

  /** The older `DocumentMetadata` record. */
  datatype LegacyDocument = LegacyDocument(docId: string, filename: string, chunksIndexed: int, uploadedAt: string)

  /** The record for one `doc_info` entry. The older grouping keeps the
      file name, upload time and chunk count of the newer one, with the
      same defaults, so its entries are read from the newer `DocInfo`.
      `None` when Pydantic's validation raises: a field that is not a
      string. */
  function LegacyToRecord(d: Value, info: VectorStore.DocInfo): (r: Option<LegacyDocument>)
    ensures r.Some? <==> d.Str? && info.filename.Str? && info.uploadedAt.Str?
    ensures r.Some? ==> d == Str(r.value.docId) && r.value.chunksIndexed == info.chunkCount
  {
    if d.Str? && info.filename.Str? && info.uploadedAt.Str? then
      Some(LegacyDocument(d.s, info.filename.s, info.chunkCount, info.uploadedAt.s))
    else None
  }

  /** The records for `keys` in order, and whether all were built. */
  function LegacyBuildFrom(keys: seq<Value>, info: map<Value, VectorStore.DocInfo>): (seq<LegacyDocument>, bool)
    requires forall k :: k in keys ==> k in info
    decreases |keys|
  {
    if keys == [] then ([], true)
    else
      var r := LegacyToRecord(keys[0], info[keys[0]]);
      if r.None? then ([], false)
      else
        var rest := LegacyBuildFrom(keys[1..], info);
        ([r.value] + rest.0, rest.1)
  }

  lemma LegacyBuildFromStep(keys: seq<Value>, info: map<Value, VectorStore.DocInfo>, acc: seq<LegacyDocument>,
                            i: nat, whole: (seq<LegacyDocument>, bool))
    requires forall k :: k in keys ==> k in info
    requires i < |keys| && acc + LegacyBuildFrom(keys[i..], info).0 == whole.0
    requires LegacyBuildFrom(keys[i..], info).1 == whole.1
    ensures var r := LegacyToRecord(keys[i], info[keys[i]]);
      && (r.None? ==> whole == (acc, false))
      && (r.Some? ==> (acc + [r.value]) + LegacyBuildFrom(keys[i + 1..], info).0 == whole.0
                      && LegacyBuildFrom(keys[i + 1..], info).1 == whole.1)
  {
    assert keys[i..][0] == keys[i] && keys[i..][1..] == keys[i + 1..];
    var r := LegacyToRecord(keys[i], info[keys[i]]);
    if r.None? {
      assert acc + [] == acc;
    } else {
      assert acc + ([r.value] + LegacyBuildFrom(keys[i + 1..], info).0)
             == (acc + [r.value]) + LegacyBuildFrom(keys[i + 1..], info).0;
    }
  }

  /** The loop of the older `list_documents` that builds the records; the
      first failure ends it with the records built so far. */
  method LegacyBuildRecords(keys: seq<Value>, info: map<Value, VectorStore.DocInfo>)
    returns (records: seq<LegacyDocument>, ok: bool)
    requires forall k :: k in keys ==> k in info
    ensures (records, ok) == LegacyBuildFrom(keys, info)
  {
    ghost var whole := LegacyBuildFrom(keys, info);
    records := [];
    var i := 0;
    assert keys[0..] == keys;
    while i < |keys|
      invariant i <= |keys|
      invariant records + LegacyBuildFrom(keys[i..], info).0 == whole.0
      invariant LegacyBuildFrom(keys[i..], info).1 == whole.1
    {
      LegacyBuildFromStep(keys, info, records, i, whole);
      var r := LegacyToRecord(keys[i], info[keys[i]]);
      if r.None? {
        return records, false;
      }
      records := records + [r.value];
      i := i + 1;
    }
    assert keys[i..] == [] && records + [] == records;
    ok := true;
  }

  /** `sort(key=uploaded_at, reverse=True)` on the older records. */
  predicate LegacyLater(a: LegacyDocument, b: LegacyDocument) {
    StrLt(b.uploadedAt, a.uploadedAt)
  }

  lemma LegacyLaterIsStrictWeakOrder()
    ensures StrictWeakOrder(LegacyLater)
  {
    forall a: LegacyDocument ensures !LegacyLater(a, a) {
      StrLtIrreflexive(a.uploadedAt);
    }
    forall a: LegacyDocument, b: LegacyDocument, c: LegacyDocument | LegacyLater(a, b) && LegacyLater(b, c)
      ensures LegacyLater(a, c)
    {
      StrLtTransitive(c.uploadedAt, b.uploadedAt, a.uploadedAt);
    }
    forall a: LegacyDocument, b: LegacyDocument, c: LegacyDocument | !LegacyLater(a, b) && !LegacyLater(b, c)
      ensures !LegacyLater(a, c)
    {
      if a.uploadedAt != b.uploadedAt {
        StrLtTotal(a.uploadedAt, b.uploadedAt);
      }
      if b.uploadedAt != c.uploadedAt {
        StrLtTotal(b.uploadedAt, c.uploadedAt);
      }
      if a.uploadedAt != b.uploadedAt && b.uploadedAt != c.uploadedAt {
        StrLtTransitive(a.uploadedAt, b.uploadedAt, c.uploadedAt);
        StrLtAsymmetric(a.uploadedAt, c.uploadedAt);
      } else if a.uploadedAt != c.uploadedAt {
        StrLtAsymmetric(a.uploadedAt, c.uploadedAt);
      } else {
        StrLtIrreflexive(a.uploadedAt);
      }
    }
  }

  /** What the older `list_documents` returns: one record per document in
      first-appearance order, sorted by upload time, latest first; when a
      record cannot be built, the records built before it, unsorted; and no
      records when grouping raises. */
  function LegacyListDocumentsOf(order: seq<string>, documents: map<string, string>,
                                 metadatas: map<string, Metadata>): seq<LegacyDocument>
  {
    var metas := VectorStore.StoredMetadatas(order, documents, metadatas);
    var g := VectorStore.GroupFrom(VectorStore.NoGroups, metas);
    if metas == [] || g.None? then []
    else
      VectorStore.GroupFromOk(VectorStore.NoGroups, metas);
      var built := LegacyBuildFrom(g.value.keys, g.value.info);
      if built.1 then SortBy(built.0, LegacyLater) else built.0
  }

  /** The older `list_documents`. */
  method ListDocuments(store: SimpleVectorStore) returns (docs: seq<LegacyDocument>)
    requires store.Valid()
    ensures docs == LegacyListDocumentsOf(store.order, store.documents, store.metadatas)
  {
    var results := store.Get(AnyMetadata, Some(["metadatas"]));
    if results.metadatas.None? || results.metadatas.value == [] {
      return [];
    }
    var metas := results.metadatas.value;
    var g := VectorStore.GroupByDocument(metas);
    if g.None? {
      return [];
    }
    VectorStore.GroupFromOk(VectorStore.NoGroups, metas);
    var records, ok := LegacyBuildRecords(g.value.keys, g.value.info);
    if !ok {
      return records;
    }
    docs := SortBy(records, LegacyLater);
  }

  lemma {:induction false} LegacyBuildFromMembers(keys: seq<Value>, info: map<Value, VectorStore.DocInfo>)
    requires forall k :: k in keys ==> k in info
    ensures forall r :: r in LegacyBuildFrom(keys, info).0 ==>
      exists k :: k in keys && LegacyToRecord(k, info[k]) == Some(r)
    decreases |keys|
  {
    if keys != [] && LegacyToRecord(keys[0], info[keys[0]]).Some? {
      LegacyBuildFromMembers(keys[1..], info);
      forall r | r in LegacyBuildFrom(keys[1..], info).0
        ensures exists k :: k in keys && LegacyToRecord(k, info[k]) == Some(r)
      {
        var k :| k in keys[1..] && LegacyToRecord(k, info[k]) == Some(r);
        assert k in keys;
      }
    }
  }

  lemma {:induction false} LegacyBuildFromAll(keys: seq<Value>, info: map<Value, VectorStore.DocInfo>)
    requires forall k :: k in keys ==> k in info
    requires LegacyBuildFrom(keys, info).1
    ensures |LegacyBuildFrom(keys, info).0| == |keys|
    ensures forall i :: 0 <= i < |keys| ==> LegacyToRecord(keys[i], info[keys[i]]) == Some(LegacyBuildFrom(keys, info).0[i])
    decreases |keys|
  {
    if keys != [] {
      LegacyBuildFromAll(keys[1..], info);
      forall i | 1 <= i < |keys|
        ensures LegacyToRecord(keys[i], info[keys[i]]) == Some(LegacyBuildFrom(keys, info).0[i])
      {
        assert keys[i] == keys[1..][i - 1];
      }
    }
  }

  /** Every record counts the stored chunks that carry its document id. */
  lemma LegacyListDocumentsCounts(order: seq<string>, documents: map<string, string>, metadatas: map<string, Metadata>)
    ensures forall r :: r in LegacyListDocumentsOf(order, documents, metadatas) ==>
      r.chunksIndexed == VectorStore.CountDoc(VectorStore.StoredMetadatas(order, documents, metadatas), Str(r.docId))
  {
    var metas := VectorStore.StoredMetadatas(order, documents, metadatas);
    var g := VectorStore.GroupFrom(VectorStore.NoGroups, metas);
    if metas != [] && g.Some? {
      VectorStore.GroupFromOk(VectorStore.NoGroups, metas);
      var keys, info := g.value.keys, g.value.info;
      var built := LegacyBuildFrom(keys, info);
      LegacyBuildFromMembers(keys, info);
      forall r | r in LegacyListDocumentsOf(order, documents, metadatas)
        ensures r.chunksIndexed == VectorStore.CountDoc(metas, Str(r.docId))
      {
        if built.1 {
          assert r in multiset(SortBy(built.0, LegacyLater));
        }
        assert r in built.0;
        var k :| k in keys && LegacyToRecord(k, info[k]) == Some(r);
        VectorStore.GroupFromKeys(VectorStore.NoGroups, metas, k);
        VectorStore.GroupFromCounts(VectorStore.NoGroups, metas, k);
      }
    }
  }

  /** Whether every record of the older listing could be built. */
  ghost predicate LegacyListingBuilds(order: seq<string>, documents: map<string, string>,
                                      metadatas: map<string, Metadata>) {
    var metas := VectorStore.StoredMetadatas(order, documents, metadatas);
    var g := VectorStore.GroupFrom(VectorStore.NoGroups, metas);
    && metas != [] && g.Some?
    && VectorStore.GroupsOk(g.value)
    && LegacyBuildFrom(g.value.keys, g.value.info).1
  }

  /** A complete listing is ordered by upload time, latest first. */
  lemma LegacyListDocumentsSorted(order: seq<string>, documents: map<string, string>, metadatas: map<string, Metadata>)
    requires LegacyListingBuilds(order, documents, metadatas)
    ensures SortedBy(LegacyListDocumentsOf(order, documents, metadatas), LegacyLater)
  {
    var metas := VectorStore.StoredMetadatas(order, documents, metadatas);
    var g := VectorStore.GroupFrom(VectorStore.NoGroups, metas).value;
    LegacyLaterIsStrictWeakOrder();
    SortBySorted(LegacyBuildFrom(g.keys, g.info).0, LegacyLater);
  }

  lemma LegacyListedIdsStored(order: seq<string>, documents: map<string, string>, metadatas: map<string, Metadata>,
                              r: LegacyDocument)
    requires LegacyListingBuilds(order, documents, metadatas)
    requires r in LegacyListDocumentsOf(order, documents, metadatas)
    ensures r.docId != "" && VectorStore.CountDoc(VectorStore.StoredMetadatas(order, documents, metadatas), Str(r.docId)) > 0
  {
    var metas := VectorStore.StoredMetadatas(order, documents, metadatas);
    var g := VectorStore.GroupFrom(VectorStore.NoGroups, metas).value;
    var built := LegacyBuildFrom(g.keys, g.info);
    assert r in multiset(built.0) by {
      assert multiset(LegacyListDocumentsOf(order, documents, metadatas)) == multiset(built.0);
    }
    LegacyBuildFromAll(g.keys, g.info);
    var i :| 0 <= i < |built.0| && built.0[i] == r;
    assert g.keys[i] in g.info;
    VectorStore.GroupFromKeys(VectorStore.NoGroups, metas, Str(r.docId));
  }

  lemma LegacyStoredIdsListed(order: seq<string>, documents: map<string, string>, metadatas: map<string, Metadata>,
                              id: string)
    requires LegacyListingBuilds(order, documents, metadatas)
    requires id != "" && VectorStore.CountDoc(VectorStore.StoredMetadatas(order, documents, metadatas), Str(id)) > 0
    ensures exists r :: r in LegacyListDocumentsOf(order, documents, metadatas) && r.docId == id
  {
    var metas := VectorStore.StoredMetadatas(order, documents, metadatas);
    var g := VectorStore.GroupFrom(VectorStore.NoGroups, metas).value;
    var built := LegacyBuildFrom(g.keys, g.info);
    VectorStore.GroupFromKeys(VectorStore.NoGroups, metas, Str(id));
    LegacyBuildFromAll(g.keys, g.info);
    assert Str(id) in g.keys;
    var i :| 0 <= i < |g.keys| && g.keys[i] == Str(id);
    assert built.0[i] in multiset(LegacyListDocumentsOf(order, documents, metadatas)) by {
      assert multiset(LegacyListDocumentsOf(order, documents, metadatas)) == multiset(built.0);
    }
  }

  /** A complete listing names exactly the non-empty document ids that
      some stored chunk carries. */
  lemma LegacyListDocumentsComplete(order: seq<string>, documents: map<string, string>,
                                    metadatas: map<string, Metadata>, id: string)
    requires LegacyListingBuilds(order, documents, metadatas)
    ensures (exists r :: r in LegacyListDocumentsOf(order, documents, metadatas) && r.docId == id) <==>
      id != "" && VectorStore.CountDoc(VectorStore.StoredMetadatas(order, documents, metadatas), Str(id)) > 0
  {
    if exists r :: r in LegacyListDocumentsOf(order, documents, metadatas) && r.docId == id {
      var r :| r in LegacyListDocumentsOf(order, documents, metadatas) && r.docId == id;
      LegacyListedIdsStored(order, documents, metadatas, r);
    }
    if id != "" && VectorStore.CountDoc(VectorStore.StoredMetadatas(order, documents, metadatas), Str(id)) > 0 {
      LegacyStoredIdsListed(order, documents, metadatas, id);
    }
  }
}
