/** The module-level functions of backend/app/services/vector_store.py:
    the metadata filter of the backend `SimpleVectorStore`, and the
    indexing, counting, listing, deletion and query functions built on the
    store. The process-wide store that `_get_vector_store` creates lazily
    is passed in as a parameter; embeddings come from the function value
    `embed`, the cosine distance from `distance`, and the upload time is
    the string `uploadedAt`. */
module VectorStore {
  import opened Wrappers
  import opened Strings
  import opened Sorting
  import opened Models
  import opened MetaValues
  import opened StoreState
  import opened SimpleStore

  // ---------------------------------------------------------------------
  // _matches_filter
  // ---------------------------------------------------------------------

  /** A `where` dictionary: its entries in iteration order. */
  type Filter = seq<(string, Value)>

  /** One `where` entry against a metadata dictionary: a missing key
      fails, a list-valued field matches by membership, any other field by
      equality. */
  predicate FieldMatches(m: Metadata, key: string, value: Value) {
    key in m && if m[key].StrList? then value.Str? && value.s in m[key].items else m[key] == value
  }

  /** `_matches_filter`: the entries are checked in order and the first
      failing one ends the check. */
  predicate MatchesFilter(m: Metadata, where: Filter)
    decreases |where|
  {
    where == [] || (FieldMatches(m, where[0].0, where[0].1) && MatchesFilter(m, where[1..]))
  }

  /** The early-exit loop accepts exactly the dictionaries every entry
      matches; in particular the empty filter accepts everything and a
      filter naming a missing key accepts nothing. */
  lemma {:induction false} MatchesFilterAll(m: Metadata, where: Filter)
    ensures MatchesFilter(m, where) <==> forall i :: 0 <= i < |where| ==> FieldMatches(m, where[i].0, where[i].1)
    decreases |where|
  {
    if where != [] {
      MatchesFilterAll(m, where[1..]);
      assert forall i :: 1 <= i < |where| ==> where[i] == where[1..][i - 1];
    }
  }

  lemma MissingKeyFails(m: Metadata, where: Filter, i: nat)
    requires i < |where| && where[i].0 !in m
    ensures !MatchesFilter(m, where)
  {
    MatchesFilterAll(m, where);
  }

  /** The filter as the predicate the store's methods take. */
  function Keep(where: Filter): Metadata -> bool {
    m => MatchesFilter(m, where)
  }

  // ---------------------------------------------------------------------
  // index_chunks
  // ---------------------------------------------------------------------

  /** `page_number if page_number else -1`: a missing or zero page number
      is stored as -1. */
  function PageNumberValue(p: Option<int>): (v: Value)
    ensures v.Int?
    ensures v.i == -1 <==> p == None || p == Some(0) || p == Some(-1)
    ensures v.i != -1 ==> p == Some(v.i)
  {
    if p.Some? && p.value != 0 then Int(p.value) else Int(-1)
  }

  /** `a or b or ""` over optional strings. */
  function FirstNonEmpty(a: Option<string>, b: Option<string>): (r: string)
    ensures r == "" <==> (a.None? || a.value == "") && (b.None? || b.value == "")
    ensures a.Some? && a.value != "" ==> r == a.value
    ensures (a.None? || a.value == "") && b.Some? ==> r == b.value
  {
    if a.Some? && a.value != "" then a.value
    else if b.Some? && b.value != "" then b.value
    else ""
  }

  /** The metadata dictionary `index_chunks` stores for one chunk. The
      `doc_type` argument wins when non-empty, otherwise the chunk's own
      type, whose name is never empty (so the final `or "other"` is never
      reached). */
  function IndexMetadata(c: Chunk, deviceName: Option<string>, docType: string, uploadedAt: string): Metadata
  {
    var md := c.metadata;
    map[
      "doc_id" := Str(md.docId),
      "filename" := Str(md.filename),
      "chunk_id" := Str(md.chunkId),
      "page_number" := PageNumberValue(md.pageNumber),
      "chunk_index" := Int(md.chunkIndex),
      "uploaded_at" := Str(uploadedAt),
      "device_name" := Str(FirstNonEmpty(deviceName, md.deviceName)),
      "doc_type" := Str(if docType != "" then docType else DocTypeName(md.docType)),
      "standards_referenced" := StrList(md.standardsReferenced),
      "section_heading" := Str(FirstNonEmpty(md.sectionHeading, None)),
      "requirement_ids" := StrList(md.requirementIds),
      "test_case_ids" := StrList(md.testCaseIds),
      "risk_ids" := StrList(md.riskIds)
    ]
  }

  /** Every stored dictionary names its chunk's document, id and (possibly
      defaulted) page, and its type is never empty. */
  lemma IndexMetadataSpec(c: Chunk, deviceName: Option<string>, docType: string, uploadedAt: string)
    ensures var m := IndexMetadata(c, deviceName, docType, uploadedAt);
      && m["doc_id"] == Str(c.metadata.docId)
      && m["chunk_id"] == Str(c.metadata.chunkId)
      && m["page_number"].Int?
      && (m["page_number"] == Int(-1) <==> c.metadata.pageNumber in {None, Some(0), Some(-1)})
      && m["doc_type"].Str? && m["doc_type"].s != ""
      && (docType != "" ==> m["doc_type"] == Str(docType))
      && m["uploaded_at"] == Str(uploadedAt)
  {
    var n := DocTypeName(c.metadata.docType);
    assert n != "" by {
      match c.metadata.docType
      case DeviceDescription => assert n[0] == 'd';
      case Vnv => assert n[0] == 'v';
      case Biocompatibility => assert n[0] == 'b';
      case Regulatory => assert n[0] == 'r';
      case Other => assert n[0] == 'o';
    }
  }

  function ChunkIds(chunks: seq<Chunk>): seq<string> {
    seq(|chunks|, i requires 0 <= i < |chunks| => chunks[i].metadata.chunkId)
  }

  function ChunkTexts(chunks: seq<Chunk>): seq<string> {
    seq(|chunks|, i requires 0 <= i < |chunks| => chunks[i].text)
  }

  function Embeds(texts: seq<string>, embed: string -> Embedding): seq<Embedding> {
    seq(|texts|, i requires 0 <= i < |texts| => embed(texts[i]))
  }

  function IndexMetadatas(chunks: seq<Chunk>, deviceName: Option<string>, docType: string,
                          uploadedAt: string): seq<Metadata>
  {
    seq(|chunks|, i requires 0 <= i < |chunks| => IndexMetadata(chunks[i], deviceName, docType, uploadedAt))
  }

  /** The loop of `index_chunks` that collects ids, texts and metadata. */
  method PrepareRows(chunks: seq<Chunk>, deviceName: Option<string>, docType: string, uploadedAt: string)
    returns (ids: seq<string>, texts: seq<string>, metas: seq<Metadata>)
    ensures ids == ChunkIds(chunks) && texts == ChunkTexts(chunks)
    ensures metas == IndexMetadatas(chunks, deviceName, docType, uploadedAt)
  {
    ids, texts, metas := [], [], [];
    for i := 0 to |chunks|
      invariant |ids| == i && |texts| == i && |metas| == i
      invariant forall k :: 0 <= k < i ==> ids[k] == chunks[k].metadata.chunkId
      invariant forall k :: 0 <= k < i ==> texts[k] == chunks[k].text
      invariant forall k :: 0 <= k < i ==> metas[k] == IndexMetadata(chunks[k], deviceName, docType, uploadedAt)
    {
      ids := ids + [chunks[i].metadata.chunkId];
      texts := texts + [chunks[i].text];
      metas := metas + [IndexMetadata(chunks[i], deviceName, docType, uploadedAt)];
    }
  }

  /** `index_chunks`: nothing happens for no chunks; otherwise every chunk
      is added under its chunk id, with its text, the embedding of its text
      and its metadata dictionary. The `docId` and `filename` arguments are
      only logged by the source. */
  method IndexChunks(store: SimpleVectorStore, chunks: seq<Chunk>, docId: string, filename: string,
                     deviceName: Option<string>, docType: string, uploadedAt: string,
                     embed: string -> Embedding) returns (n: nat)
    requires store.Valid()
    modifies store
    ensures store.Valid()
    ensures n == |chunks|
    ensures chunks == [] ==> unchanged(store)
    ensures store.order == AddOrder(old(store.order), ChunkIds(chunks))
    ensures store.documents == Assign(old(store.documents), ChunkIds(chunks), ChunkTexts(chunks))
    ensures store.embeddings == Assign(old(store.embeddings), ChunkIds(chunks), Embeds(ChunkTexts(chunks), embed))
    ensures store.metadatas
            == Assign(old(store.metadatas), ChunkIds(chunks), IndexMetadatas(chunks, deviceName, docType, uploadedAt))
  {
    if chunks == [] {
      return 0;
    }
    var ids, texts, metas := PrepareRows(chunks, deviceName, docType, uploadedAt);
    var embeddings := Embeds(texts, embed);
    store.Add(ids, texts, embeddings, metas);
    n := |chunks|;
  }

  /** After indexing, each chunk's id holds the dictionary built from the
      last chunk with that id, and ids not indexed keep what they had. */
  lemma IndexedChunkStored(metadatas: map<string, Metadata>, chunks: seq<Chunk>, deviceName: Option<string>,
                           docType: string, uploadedAt: string, i: nat)
    requires i < |chunks| && LastOccurrence(ChunkIds(chunks), i)
    ensures var stored := Assign(metadatas, ChunkIds(chunks), IndexMetadatas(chunks, deviceName, docType, uploadedAt));
      chunks[i].metadata.chunkId in stored
      && stored[chunks[i].metadata.chunkId] == IndexMetadata(chunks[i], deviceName, docType, uploadedAt)
  {
    AssignLast(metadatas, ChunkIds(chunks), IndexMetadatas(chunks, deviceName, docType, uploadedAt), i);
  }

  // ---------------------------------------------------------------------
  // get_document_chunk_count, document_exists, delete_document
  // ---------------------------------------------------------------------

  /** `{"doc_id": doc_id}`. */
  function DocFilter(docId: string): Filter {
    [("doc_id", Str(docId))]
  }

  /** The stored ids whose metadata the document filter accepts. */
  ghost function DocChunks(metadatas: map<string, Metadata>, docId: string): set<string> {
    set id | id in metadatas && MatchesFilter(metadatas[id], DocFilter(docId))
  }

  lemma {:induction false} DistinctCard(xs: seq<string>)
    requires Distinct(xs)
    ensures |Elems(xs)| == |xs|
    decreases |xs|
  {
    if xs != [] {
      assert Distinct(xs[1..]) by {
        forall i, j | 0 <= i < j < |xs[1..]| ensures xs[1..][i] != xs[1..][j] {
          assert xs[1..][i] == xs[i + 1] && xs[1..][j] == xs[j + 1];
        }
      }
      DistinctCard(xs[1..]);
      ElemsCons(xs);
      forall j | 0 <= j < |xs[1..]| ensures xs[1..][j] != xs[0] {
        assert xs[1..][j] == xs[j + 1];
      }
    }
  }

  /** In a consistent store the filtered ids are the document's chunks,
      each once. */
  lemma SelectedDocChunks(order: seq<string>, documents: map<string, string>, embeddings: map<string, Embedding>,
                          metadatas: map<string, Metadata>, docId: string)
    requires Consistent(order, documents, embeddings, metadatas)
    ensures Elems(Selected(order, metadatas, Keep(DocFilter(docId)))) == DocChunks(metadatas, docId)
    ensures |Selected(order, metadatas, Keep(DocFilter(docId)))| == |DocChunks(metadatas, docId)|
  {
    var sel := Selected(order, metadatas, Keep(DocFilter(docId)));
    SelectedSpec(order, metadatas, Keep(DocFilter(docId)));
    forall id ensures id in Elems(sel) <==> id in DocChunks(metadatas, docId) {
      assert id in order <==> id in Elems(order);
    }
    DistinctCard(sel);
  }

  /** `get_document_chunk_count`: how many stored chunks the filter
      `{"doc_id": doc_id}` selects. */
  method GetDocumentChunkCount(store: SimpleVectorStore, docId: string) returns (count: nat)
    requires store.Valid()
    ensures count == |DocChunks(store.metadatas, docId)|
  {
    var results := store.Get(Keep(DocFilter(docId)), None);
    count := |results.ids|;
    SelectedDocChunks(store.order, store.documents, store.embeddings, store.metadatas, docId);
  }

  /** `document_exists`. */
  method DocumentExists(store: SimpleVectorStore, docId: string) returns (b: bool)
    requires store.Valid()
    ensures b <==> exists id :: id in store.metadatas && MatchesFilter(store.metadatas[id], DocFilter(docId))
  {
    var count := GetDocumentChunkCount(store, docId);
    b := count > 0;
    if b {
      ghost var id :| id in DocChunks(store.metadatas, docId);
    } else {
      forall id | id in store.metadatas
        ensures !MatchesFilter(store.metadatas[id], DocFilter(docId))
      {
        assert id !in DocChunks(store.metadatas, docId);
      }
    }
  }

  /** `delete_document`: with no chunks it returns 0 and changes nothing;
      otherwise it removes exactly the document's chunks and returns how
      many there were, after which the document no longer exists. */
  method DeleteDocument(store: SimpleVectorStore, docId: string) returns (n: nat)
    requires store.Valid()
    modifies store
    ensures store.Valid()
    ensures n == |DocChunks(old(store.metadatas), docId)|
    ensures n == 0 ==> unchanged(store)
    ensures DocChunks(store.metadatas, docId) == {}
    ensures store.metadatas == old(store.metadatas) - DocChunks(old(store.metadatas), docId)
    ensures store.documents == old(store.documents) - DocChunks(old(store.metadatas), docId)
    ensures store.embeddings == old(store.embeddings) - DocChunks(old(store.metadatas), docId)
    ensures store.order == Without(old(store.order), DocChunks(old(store.metadatas), docId))
  {
    var count := GetDocumentChunkCount(store, docId);
    if count == 0 {
      assert DocChunks(store.metadatas, docId) == {};
      WithoutNothing(store.order);
      return 0;
    }
    SelectedDocChunks(store.order, store.documents, store.embeddings, store.metadatas, docId);
    ghost var gone := DocChunks(store.metadatas, docId);
    var _ := store.Delete(Keep(DocFilter(docId)));
    assert DocChunks(store.metadatas, docId) == {} by {
      forall id | id in store.metadatas ensures id !in DocChunks(store.metadatas, docId) {
        assert id !in gone;
      }
    }
    n := count;
  }

  // ---------------------------------------------------------------------
  // query_chunks
  // ---------------------------------------------------------------------

  /** A truthy optional string argument. */
  predicate Given(o: Option<string>) {
    o.Some? && o.value != ""
  }

  /** The filter `query_chunks` builds: the non-empty arguments among doc
      id, device name and document type, in that order. */
  function WhereOf(docId: Option<string>, deviceName: Option<string>, docType: Option<string>): Filter {
    (if Given(docId) then [("doc_id", Str(docId.value))] else [])
    + (if Given(deviceName) then [("device_name", Str(deviceName.value))] else [])
    + (if Given(docType) then [("doc_type", Str(docType.value))] else [])
  }

  lemma {:induction false} MatchesFilterAppend(m: Metadata, w1: Filter, w2: Filter)
    ensures MatchesFilter(m, w1 + w2) <==> MatchesFilter(m, w1) && MatchesFilter(m, w2)
    decreases |w1|
  {
    if w1 != [] {
      assert (w1 + w2)[0] == w1[0] && (w1 + w2)[1..] == w1[1..] + w2;
      MatchesFilterAppend(m, w1[1..], w2);
    } else {
      assert w1 + w2 == w2;
    }
  }

  /** A chunk passes the built filter iff it matches each argument that was
      given; arguments left out or empty constrain nothing. */
  lemma WhereOfSpec(m: Metadata, docId: Option<string>, deviceName: Option<string>, docType: Option<string>)
    ensures MatchesFilter(m, WhereOf(docId, deviceName, docType)) <==>
      && (Given(docId) ==> FieldMatches(m, "doc_id", Str(docId.value)))
      && (Given(deviceName) ==> FieldMatches(m, "device_name", Str(deviceName.value)))
      && (Given(docType) ==> FieldMatches(m, "doc_type", Str(docType.value)))
  {
    var a := if Given(docId) then [("doc_id", Str(docId.value))] else [];
    var b := if Given(deviceName) then [("device_name", Str(deviceName.value))] else [];
    var c := if Given(docType) then [("doc_type", Str(docType.value))] else [];
    MatchesFilterAppend(m, a + b, c);
    MatchesFilterAppend(m, a, b);
  }

  /** `where if where else None`: an empty filter becomes no filter. */
  function QueryKeep(where: Filter): Metadata -> bool {
    if where == [] then AnyMetadata else Keep(where)
  }

  lemma QueryKeepSpec(where: Filter, m: Metadata)
    ensures QueryKeep(where)(m) <==> MatchesFilter(m, where)
  {
  }

  /** `standard in metadata.get("standards_referenced", [])` raises a
      `TypeError` when the stored value is `None` or an integer. */
  datatype QueryError = TypeError

  /** Whether a chunk's metadata names `standard`: membership in a list, a
      substring of a string, and an error for other values; a missing key
      counts as the empty list. */
  function HasStandard(m: Metadata, standard: string): Result<bool, QueryError> {
    var v := if "standards_referenced" in m then m["standards_referenced"] else StrList([]);
    match v
    case StrList(items) => Ok(standard in items)
    case Str(s) => Ok(Contains(s, standard))
    case _ => Err(TypeError)
  }

  /** One formatted result of `query_chunks`. */
  datatype Hit = Hit(chunkId: string, text: string, metadata: Metadata, distance: real)

  function Hits(r: QueryResult): seq<Hit>
    requires WellShaped(r)
  {
    seq(|r.ids|, i requires 0 <= i < |r.ids| => Hit(r.ids[i], r.documents[i], r.metadatas[i], r.distances[i]))
  }

  /** The hits that name `standard`, in order, when it is given; the first
      metadata value that cannot be searched raises. */
  function FilterStandard(hits: seq<Hit>, standard: Option<string>): Result<seq<Hit>, QueryError>
    decreases |hits|
  {
    if hits == [] then Ok([])
    else
      var here := if Given(standard) then HasStandard(hits[0].metadata, standard.value) else Ok(true);
      if here.Err? then Err(here.error)
      else
        var rest := FilterStandard(hits[1..], standard);
        if rest.Err? then rest else Ok((if here.value then [hits[0]] else []) + rest.value)
  }

  /** `acc` followed by the outcome for the remaining hits. */
  function Then(acc: seq<Hit>, r: Result<seq<Hit>, QueryError>): Result<seq<Hit>, QueryError> {
    if r.Err? then r else Ok(acc + r.value)
  }

  ghost predicate FormatLoop(hits: seq<Hit>, standard: Option<string>, acc: seq<Hit>, i: nat,
                             whole: Result<seq<Hit>, QueryError>)
  {
    i <= |hits| && Then(acc, FilterStandard(hits[i..], standard)) == whole
  }

  lemma FormatLoopStep(hits: seq<Hit>, standard: Option<string>, acc: seq<Hit>, i: nat,
                       whole: Result<seq<Hit>, QueryError>)
    requires FormatLoop(hits, standard, acc, i, whole) && i < |hits|
    ensures var here := if Given(standard) then HasStandard(hits[i].metadata, standard.value) else Ok(true);
      && (here.Err? ==> whole == Err(here.error))
      && (here == Ok(true) ==> FormatLoop(hits, standard, acc + [hits[i]], i + 1, whole))
      && (here == Ok(false) ==> FormatLoop(hits, standard, acc, i + 1, whole))
  {
    assert hits[i..][0] == hits[i] && hits[i..][1..] == hits[i + 1..];
    var rest := FilterStandard(hits[i + 1..], standard);
    if rest.Ok? {
      assert acc + ([hits[i]] + rest.value) == (acc + [hits[i]]) + rest.value;
      assert [] + rest.value == rest.value;
    }
  }

  /** The formatting loop of `query_chunks`. */
  method FormatResults(r: QueryResult, standard: Option<string>) returns (out: Result<seq<Hit>, QueryError>)
    requires WellShaped(r)
    ensures out == FilterStandard(Hits(r), standard)
  {
    ghost var hits := Hits(r);
    ghost var whole := FilterStandard(hits, standard);
    var acc: seq<Hit> := [];
    var i := 0;
    assert hits[0..] == hits;
    assert Then(acc, whole) == whole by {
      if whole.Ok? {
        assert acc + whole.value == whole.value;
      }
    }
    while i < |r.ids|
      invariant FormatLoop(hits, standard, acc, i, whole)
    {
      var hit := Hit(r.ids[i], r.documents[i], r.metadatas[i], r.distances[i]);
      assert hit == hits[i];
      FormatLoopStep(hits, standard, acc, i, whole);
      if Given(standard) {
        var has := HasStandard(hit.metadata, standard.value);
        if has.Err? {
          return Err(has.error);
        }
        if !has.value {
          i := i + 1;
          continue;
        }
      }
      acc := acc + [hit];
      i := i + 1;
    }
    assert hits[i..] == [] && acc + [] == acc;
    out := Ok(acc);
  }

  /** Without a standard every hit is kept. */
  lemma {:induction false} FilterStandardNone(hits: seq<Hit>, standard: Option<string>)
    requires !Given(standard)
    ensures FilterStandard(hits, standard) == Ok(hits)
    decreases |hits|
  {
    if hits != [] {
      FilterStandardNone(hits[1..], standard);
      assert hits == [hits[0]] + hits[1..];
    }
  }

  /** The filter raises iff some hit's standards value cannot be searched. */
  lemma {:induction false} FilterStandardErr(hits: seq<Hit>, standard: Option<string>)
    ensures FilterStandard(hits, standard).Err? <==>
      Given(standard) && exists i :: 0 <= i < |hits| && HasStandard(hits[i].metadata, standard.value).Err?
    decreases |hits|
  {
    if hits != [] {
      FilterStandardErr(hits[1..], standard);
      if Given(standard) && exists i :: 0 <= i < |hits[1..]| && HasStandard(hits[1..][i].metadata, standard.value).Err? {
        var i :| 0 <= i < |hits[1..]| && HasStandard(hits[1..][i].metadata, standard.value).Err?;
        assert hits[i + 1] == hits[1..][i];
      }
      if Given(standard) && exists i :: 0 <= i < |hits| && HasStandard(hits[i].metadata, standard.value).Err? {
        var i :| 0 <= i < |hits| && HasStandard(hits[i].metadata, standard.value).Err?;
        if i > 0 {
          assert hits[1..][i - 1] == hits[i];
        }
      }
    }
  }

  predicate SortedByDistance(hits: seq<Hit>) {
    forall k, l :: 0 <= k < l < |hits| ==> hits[k].distance <= hits[l].distance
  }

  /** A kept hit is one of the hits and names the standard. */
  lemma {:induction false} FilterStandardMembers(hits: seq<Hit>, standard: Option<string>)
    requires FilterStandard(hits, standard).Ok?
    ensures forall h :: h in FilterStandard(hits, standard).value ==>
      h in hits && (Given(standard) ==> HasStandard(h.metadata, standard.value) == Ok(true))
    decreases |hits|
  {
    if hits != [] {
      FilterStandardMembers(hits[1..], standard);
      forall h | h in FilterStandard(hits[1..], standard).value ensures h in hits {
        assert h in hits[1..];
      }
    }
  }

  lemma {:induction false} FilterStandardLength(hits: seq<Hit>, standard: Option<string>)
    requires FilterStandard(hits, standard).Ok?
    ensures |FilterStandard(hits, standard).value| <= |hits|
    decreases |hits|
  {
    if hits != [] {
      FilterStandardLength(hits[1..], standard);
    }
  }

  /** Dropping hits keeps them in non-decreasing distance order. */
  lemma {:induction false} FilterStandardSorted(hits: seq<Hit>, standard: Option<string>)
    requires FilterStandard(hits, standard).Ok? && SortedByDistance(hits)
    ensures SortedByDistance(FilterStandard(hits, standard).value)
    decreases |hits|
  {
    if hits != [] {
      var rest := FilterStandard(hits[1..], standard).value;
      FilterStandardSorted(hits[1..], standard);
      FilterStandardMembers(hits[1..], standard);
      forall h | h in rest ensures hits[0].distance <= h.distance {
        var j :| 0 <= j < |hits[1..]| && hits[1..][j] == h;
        assert hits[j + 1] == h;
      }
      var kept := FilterStandard(hits, standard).value;
      if kept != rest {
        assert kept == [hits[0]] + rest;
        forall k, l | 0 <= k < l < |kept| ensures kept[k].distance <= kept[l].distance {
          assert kept[l] == rest[l - 1] && rest[l - 1] in rest;
          if k > 0 {
            assert kept[k] == rest[k - 1];
          }
        }
      }
    }
  }

  /** What `query_chunks` returns for a store's contents and the query's
      embedding `q`. */
  function QueryChunksOf(order: seq<string>, documents: map<string, string>, embeddings: map<string, Embedding>,
                         metadatas: map<string, Metadata>, q: Embedding, docId: Option<string>,
                         deviceName: Option<string>, docType: Option<string>, standard: Option<string>,
                         topK: int, distance: (Embedding, Embedding) -> real): Result<seq<Hit>, QueryError>
    requires Elems(order) <= embeddings.Keys
  {
    var keep := QueryKeep(WhereOf(docId, deviceName, docType));
    FilterStandard(Hits(QueryOf(order, documents, embeddings, metadatas, q, topK, keep, distance)), standard)
  }

  /** `query_chunks`: builds the filter from the given arguments, queries
      the store for the `top_k` nearest chunks, then drops those that do
      not name `standard`. */
  method QueryChunks(store: SimpleVectorStore, query: string, docId: Option<string>, deviceName: Option<string>,
                     docType: Option<string>, standard: Option<string>, topK: int,
                     embed: string -> Embedding, distance: (Embedding, Embedding) -> real)
    returns (out: Result<seq<Hit>, QueryError>)
    requires store.Valid()
    ensures out == QueryChunksOf(store.order, store.documents, store.embeddings, store.metadatas, embed(query),
                                 docId, deviceName, docType, standard, topK, distance)
  {
    var where: Filter := [];
    if Given(docId) {
      where := where + [("doc_id", Str(docId.value))];
    }
    if Given(deviceName) {
      where := where + [("device_name", Str(deviceName.value))];
    }
    if Given(docType) {
      where := where + [("doc_type", Str(docType.value))];
    }
    assert where == WhereOf(docId, deviceName, docType);
    var queryEmbedding := embed(query);
    var results := store.Query(queryEmbedding, topK, QueryKeep(where), distance);
    out := FormatResults(results, standard);
  }

  /** At most `top_k` results: the standard is applied after the cut. */
  lemma QueryChunksLength(order: seq<string>, documents: map<string, string>, embeddings: map<string, Embedding>,
                          metadatas: map<string, Metadata>, q: Embedding, docId: Option<string>,
                          deviceName: Option<string>, docType: Option<string>, standard: Option<string>,
                          topK: int, distance: (Embedding, Embedding) -> real)
    requires Elems(order) <= embeddings.Keys && topK >= 0
    requires QueryChunksOf(order, documents, embeddings, metadatas, q, docId, deviceName, docType, standard,
                           topK, distance).Ok?
    ensures |QueryChunksOf(order, documents, embeddings, metadatas, q, docId, deviceName, docType, standard,
                           topK, distance).value| <= topK
  {
    var keep := QueryKeep(WhereOf(docId, deviceName, docType));
    var r := QueryOf(order, documents, embeddings, metadatas, q, topK, keep, distance);
    FilterStandardLength(Hits(r), standard);
    RankedLength(order, embeddings, metadatas, q, topK, keep, distance);
  }

  /** Every result is a stored chunk that passes the filter built from the
      arguments and names the standard, reported with its stored text and
      metadata and its distance from the query. */
  lemma QueryChunksMembers(order: seq<string>, documents: map<string, string>, embeddings: map<string, Embedding>,
                           metadatas: map<string, Metadata>, q: Embedding, docId: Option<string>,
                           deviceName: Option<string>, docType: Option<string>, standard: Option<string>,
                           topK: int, distance: (Embedding, Embedding) -> real)
    requires Consistent(order, documents, embeddings, metadatas)
    requires QueryChunksOf(order, documents, embeddings, metadatas, q, docId, deviceName, docType, standard,
                           topK, distance).Ok?
    ensures forall h :: h in QueryChunksOf(order, documents, embeddings, metadatas, q, docId, deviceName, docType,
                                           standard, topK, distance).value ==>
      && h.chunkId in metadatas && h.chunkId in documents
      && h.metadata == metadatas[h.chunkId] && h.text == documents[h.chunkId]
      && h.distance == distance(q, embeddings[h.chunkId])
      && MatchesFilter(h.metadata, WhereOf(docId, deviceName, docType))
      && (Given(standard) ==> HasStandard(h.metadata, standard.value) == Ok(true))
  {
    var keep := QueryKeep(WhereOf(docId, deviceName, docType));
    var r := QueryOf(order, documents, embeddings, metadatas, q, topK, keep, distance);
    var hits := Hits(r);
    FilterStandardMembers(hits, standard);
    if r != NoResults {
      var top := Ranked(order, embeddings, metadatas, q, topK, keep, distance);
      RankedMembers(order, embeddings, metadatas, q, topK, keep, distance);
      forall i | 0 <= i < |hits|
        ensures var h := hits[i];
          && h.chunkId in metadatas && h.chunkId in documents
          && h.metadata == metadatas[h.chunkId] && h.text == documents[h.chunkId]
          && h.distance == distance(q, embeddings[h.chunkId])
          && MatchesFilter(h.metadata, WhereOf(docId, deviceName, docType))
      {
        assert top[i] in top;
        assert top[i].0 in Elems(order);
        QueryKeepSpec(WhereOf(docId, deviceName, docType), metadatas[top[i].0]);
      }
    }
  }

  /** The results come nearest first. */
  lemma QueryChunksSorted(order: seq<string>, documents: map<string, string>, embeddings: map<string, Embedding>,
                          metadatas: map<string, Metadata>, q: Embedding, docId: Option<string>,
                          deviceName: Option<string>, docType: Option<string>, standard: Option<string>,
                          topK: int, distance: (Embedding, Embedding) -> real)
    requires Elems(order) <= embeddings.Keys
    requires QueryChunksOf(order, documents, embeddings, metadatas, q, docId, deviceName, docType, standard,
                           topK, distance).Ok?
    ensures SortedByDistance(QueryChunksOf(order, documents, embeddings, metadatas, q, docId, deviceName, docType,
                                           standard, topK, distance).value)
  {
    var keep := QueryKeep(WhereOf(docId, deviceName, docType));
    var r := QueryOf(order, documents, embeddings, metadatas, q, topK, keep, distance);
    RankedSorted(order, embeddings, metadatas, q, topK, keep, distance);
    FilterStandardSorted(Hits(r), standard);
  }

  // ---------------------------------------------------------------------
  // list_documents
  // ---------------------------------------------------------------------

  /** `metadata.get(key, default)`. */
  function GetOr(m: Metadata, key: string, default: Value): Value {
    if key in m then m[key] else default
  }

  /** What `list_documents` gathers for one document id: the fields of the
      first chunk seen, with their defaults, the number of chunks, and the
      standards of every chunk. */
  datatype DocInfo = DocInfo(filename: Value, uploadedAt: Value, deviceName: Value, docType: Value,
                             chunkCount: nat, standards: seq<string>)

  /** The `doc_info` dictionary: its keys in insertion order and its entries. */
  datatype Groups = Groups(keys: seq<Value>, info: map<Value, DocInfo>)

  const NoGroups := Groups([], map[])

  function FirstInfo(m: Metadata): DocInfo {
    DocInfo(GetOr(m, "filename", Str("unknown")), GetOr(m, "uploaded_at", Str("")),
            GetOr(m, "device_name", Str("")), GetOr(m, "doc_type", Str("other")), 0, [])
  }

  /** The chunk's standards when the stored value is a list. */
  function ListedStandards(m: Metadata): seq<string> {
    var v := GetOr(m, "standards_referenced", StrList([]));
    if v.StrList? then v.items else []
  }

  /** One chunk's metadata into `doc_info`. Chunks with a false doc id are
      skipped; a list-valued doc id cannot be a dictionary key, which raises
      (`None`). */
  function AddToGroups(g: Groups, m: Metadata): Option<Groups> {
    var d := Get(m, "doc_id");
    if !Truthy(d) then Some(g)
    else if d.StrList? then None
    else
      var info := if d in g.info then g.info[d] else FirstInfo(m);
      Some(Groups(if d in g.info then g.keys else g.keys + [d],
                  g.info[d := info.(chunkCount := info.chunkCount + 1, standards := info.standards + ListedStandards(m))]))
  }

  /** The grouping loop from state `g` over `metas`. */
  function GroupFrom(g: Groups, metas: seq<Metadata>): Option<Groups>
    decreases |metas|
  {
    if metas == [] then Some(g)
    else
      var next := AddToGroups(g, metas[0]);
      if next.None? then None else GroupFrom(next.value, metas[1..])
  }

  /** The grouping loop of `list_documents`. */
  method GroupByDocument(metas: seq<Metadata>) returns (r: Option<Groups>)
    ensures r == GroupFrom(NoGroups, metas)
  {
    var g := NoGroups;
    var i := 0;
    while i < |metas|
      invariant i <= |metas| && GroupFrom(g, metas[i..]) == GroupFrom(NoGroups, metas)
    {
      assert metas[i..][0] == metas[i] && metas[i..][1..] == metas[i + 1..];
      ghost var before := g;
      var d := Get(metas[i], "doc_id");
      if Truthy(d) {
        if d.StrList? {
          return None;
        }
        var keys := g.keys;
        var info: DocInfo;
        if d !in g.info {
          keys := keys + [d];
          info := FirstInfo(metas[i]);
        } else {
          info := g.info[d];
        }
        info := info.(chunkCount := info.chunkCount + 1);
        var standards := GetOr(metas[i], "standards_referenced", StrList([]));
        if standards.StrList? {
          info := info.(standards := info.standards + standards.items);
        } else {
          assert info.standards + ListedStandards(metas[i]) == info.standards;
        }
        g := Groups(keys, g.info[d := info]);
        AddToGroupsStep(before, metas[i], g);
      }
      i := i + 1;
    }
    assert metas[i..] == [];
    r := Some(g);
  }

  lemma AddToGroupsStep(before: Groups, m: Metadata, after: Groups)
    requires var d := Get(m, "doc_id");
      && Truthy(d) && !d.StrList?
      && var first := if d in before.info then before.info[d] else FirstInfo(m);
      && after.keys == (if d in before.info then before.keys else before.keys + [d])
      && after.info == before.info[d := first.(chunkCount := first.chunkCount + 1,
                                                standards := first.standards + ListedStandards(m))]
    ensures AddToGroups(before, m) == Some(after)
  {
  }

  /** `doc_info`'s keys are exactly its entries, each listed once. */
  ghost predicate GroupsOk(g: Groups) {
    && (forall k :: k in g.keys <==> k in g.info)
    && (forall i, j :: 0 <= i < j < |g.keys| ==> g.keys[i] != g.keys[j])
  }

  lemma {:induction false} GroupFromOk(g: Groups, metas: seq<Metadata>)
    requires GroupsOk(g) && GroupFrom(g, metas).Some?
    ensures GroupsOk(GroupFrom(g, metas).value)
    decreases |metas|
  {
    if metas != [] {
      GroupFromOk(AddToGroups(g, metas[0]).value, metas[1..]);
    }
  }

  /** How many of `metas` carry the doc id `d`. */
  function CountDoc(metas: seq<Metadata>, d: Value): nat
    decreases |metas|
  {
    if metas == [] then 0
    else (if Get(metas[0], "doc_id") == d then 1 else 0) + CountDoc(metas[1..], d)
  }

  /** A document id gets an entry iff it is true and some chunk carries it. */
  lemma {:induction false} GroupFromKeys(g: Groups, metas: seq<Metadata>, d: Value)
    requires GroupFrom(g, metas).Some?
    ensures d in GroupFrom(g, metas).value.info <==> d in g.info || (Truthy(d) && CountDoc(metas, d) > 0)
    decreases |metas|
  {
    if metas != [] {
      GroupFromKeys(AddToGroups(g, metas[0]).value, metas[1..], d);
    }
  }

  /** Each entry counts every chunk that carries its id. */
  lemma {:induction false} GroupFromCounts(g: Groups, metas: seq<Metadata>, d: Value)
    requires GroupFrom(g, metas).Some? && d in GroupFrom(g, metas).value.info && Truthy(d)
    ensures GroupFrom(g, metas).value.info[d].chunkCount
            == (if d in g.info then g.info[d].chunkCount else 0) + CountDoc(metas, d)
    decreases |metas|
  {
    if metas != [] {
      var next := AddToGroups(g, metas[0]).value;
      GroupFromCounts(next, metas[1..], d);
    }
  }

  /** The `DocumentMetadata` record for one entry; `None` when Pydantic's
      validation raises: a field that is not a string, or a document type
      outside the five literals. */
  function ToRecord(d: Value, info: DocInfo): (r: Option<DocumentMetadata>)
    ensures r.Some? <==> d.Str? && info.filename.Str? && info.uploadedAt.Str? && info.docType.Str?
                         && ParseDocType(info.docType.s).Some? && (Truthy(info.deviceName) ==> info.deviceName.Str?)
    ensures r.Some? ==> d == Str(r.value.docId) && r.value.chunksIndexed == info.chunkCount
    ensures r.Some? ==> Str(r.value.filename) == info.filename && Str(r.value.uploadedAt) == info.uploadedAt
    ensures r.Some? ==> (r.value.deviceName.Some? <==> Truthy(info.deviceName))
    ensures r.Some? ==> StrictlySorted(r.value.standardsDetected) && Elems(r.value.standardsDetected) == Elems(info.standards)
  {
    if && d.Str? && info.filename.Str? && info.uploadedAt.Str?
       && info.docType.Str? && ParseDocType(info.docType.s).Some?
       && (Truthy(info.deviceName) ==> info.deviceName.Str?)
    then
      Some(DocumentMetadata(d.s, info.filename.s,
                            if Truthy(info.deviceName) then Some(info.deviceName.s) else None,
                            ParseDocType(info.docType.s).value, info.chunkCount, info.uploadedAt.s,
                            SortedSet(info.standards)))
    else None
  }

  /** The records for `keys` in order, and whether all were built: the first
      failure ends the loop with the records built so far. */
  function BuildFrom(keys: seq<Value>, info: map<Value, DocInfo>): (seq<DocumentMetadata>, bool)
    requires forall k :: k in keys ==> k in info
    decreases |keys|
  {
    if keys == [] then ([], true)
    else
      var r := ToRecord(keys[0], info[keys[0]]);
      if r.None? then ([], false)
      else
        var rest := BuildFrom(keys[1..], info);
        ([r.value] + rest.0, rest.1)
  }

  lemma BuildFromStep(keys: seq<Value>, info: map<Value, DocInfo>, acc: seq<DocumentMetadata>, i: nat,
                      whole: (seq<DocumentMetadata>, bool))
    requires forall k :: k in keys ==> k in info
    requires i < |keys| && acc + BuildFrom(keys[i..], info).0 == whole.0 && BuildFrom(keys[i..], info).1 == whole.1
    ensures var r := ToRecord(keys[i], info[keys[i]]);
      && (r.None? ==> whole == (acc, false))
      && (r.Some? ==> (acc + [r.value]) + BuildFrom(keys[i + 1..], info).0 == whole.0
                      && BuildFrom(keys[i + 1..], info).1 == whole.1)
  {
    assert keys[i..][0] == keys[i] && keys[i..][1..] == keys[i + 1..];
    var r := ToRecord(keys[i], info[keys[i]]);
    if r.None? {
      assert acc + [] == acc;
    } else {
      assert acc + ([r.value] + BuildFrom(keys[i + 1..], info).0)
             == (acc + [r.value]) + BuildFrom(keys[i + 1..], info).0;
    }
  }

  /** The loop of `list_documents` that builds the records. */
  method BuildRecords(keys: seq<Value>, info: map<Value, DocInfo>) returns (records: seq<DocumentMetadata>, ok: bool)
    requires forall k :: k in keys ==> k in info
    ensures (records, ok) == BuildFrom(keys, info)
  {
    ghost var whole := BuildFrom(keys, info);
    records := [];
    var i := 0;
    assert keys[0..] == keys;
    while i < |keys|
      invariant i <= |keys|
      invariant records + BuildFrom(keys[i..], info).0 == whole.0 && BuildFrom(keys[i..], info).1 == whole.1
    {
      BuildFromStep(keys, info, records, i, whole);
      var r := ToRecord(keys[i], info[keys[i]]);
      if r.None? {
        return records, false;
      }
      records := records + [r.value];
      i := i + 1;
    }
    assert keys[i..] == [] && records + [] == records;
    ok := true;
  }

  /** `sort(key=uploaded_at, reverse=True)`: the stable sort on the
      reversed order of upload times. */
  predicate Later(a: DocumentMetadata, b: DocumentMetadata) {
    StrLt(b.uploadedAt, a.uploadedAt)
  }

  lemma LaterIsStrictWeakOrder()
    ensures StrictWeakOrder(Later)
  {
    forall a: DocumentMetadata ensures !Later(a, a) {
      StrLtIrreflexive(a.uploadedAt);
    }
    forall a: DocumentMetadata, b: DocumentMetadata, c: DocumentMetadata | Later(a, b) && Later(b, c)
      ensures Later(a, c)
    {
      StrLtTransitive(c.uploadedAt, b.uploadedAt, a.uploadedAt);
    }
    forall a: DocumentMetadata, b: DocumentMetadata, c: DocumentMetadata | !Later(a, b) && !Later(b, c)
      ensures !Later(a, c)
    {
      if a.uploadedAt != b.uploadedAt {
        StrLtTotal(a.uploadedAt, b.uploadedAt);
      }
      if b.uploadedAt != c.uploadedAt {
        StrLtTotal(b.uploadedAt, c.uploadedAt);
      }
      if a.uploadedAt != b.uploadedAt && b.uploadedAt != c.uploadedAt {
        StrLtTransitive(a.uploadedAt, b.uploadedAt, c.uploadedAt);
        StrLtAsymmetric(a.uploadedAt, c.uploadedAt);
      } else if a.uploadedAt != c.uploadedAt {
        StrLtAsymmetric(a.uploadedAt, c.uploadedAt);
      } else {
        StrLtIrreflexive(a.uploadedAt);
      }
    }
  }

  /** The metadata of every stored chunk, in store order: what
      `get(include=["metadatas"])` returns. */
  function StoredMetadatas(order: seq<string>, documents: map<string, string>,
                           metadatas: map<string, Metadata>): seq<Metadata>
  {
    var got := GetOf(order, documents, metadatas, AnyMetadata, Some(["metadatas"]));
    if got.metadatas.None? then [] else got.metadatas.value
  }

  /** What `list_documents` returns: one record per document in
      first-appearance order, sorted by upload time, latest first; when a
      record cannot be built, the records built before it, unsorted; and no
      records when grouping raises. */
  function ListDocumentsOf(order: seq<string>, documents: map<string, string>,
                           metadatas: map<string, Metadata>): seq<DocumentMetadata>
  {
    var metas := StoredMetadatas(order, documents, metadatas);
    var g := GroupFrom(NoGroups, metas);
    if metas == [] || g.None? then []
    else
      GroupFromOk(NoGroups, metas);
      var built := BuildFrom(g.value.keys, g.value.info);
      if built.1 then SortBy(built.0, Later) else built.0
  }

  /** `list_documents`. */
  method ListDocuments(store: SimpleVectorStore) returns (docs: seq<DocumentMetadata>)
    requires store.Valid()
    ensures docs == ListDocumentsOf(store.order, store.documents, store.metadatas)
  {
    var results := store.Get(AnyMetadata, Some(["metadatas"]));
    if results.metadatas.None? || results.metadatas.value == [] {
      return [];
    }
    var metas := results.metadatas.value;
    var g := GroupByDocument(metas);
    if g.None? {
      return [];
    }
    GroupFromOk(NoGroups, metas);
    var records, ok := BuildRecords(g.value.keys, g.value.info);
    if !ok {
      return records;
    }
    docs := SortBy(records, Later);
  }

  lemma {:induction false} BuildFromMembers(keys: seq<Value>, info: map<Value, DocInfo>)
    requires forall k :: k in keys ==> k in info
    ensures forall r :: r in BuildFrom(keys, info).0 ==> exists k :: k in keys && ToRecord(k, info[k]) == Some(r)
    decreases |keys|
  {
    if keys != [] && ToRecord(keys[0], info[keys[0]]).Some? {
      BuildFromMembers(keys[1..], info);
      forall r | r in BuildFrom(keys[1..], info).0
        ensures exists k :: k in keys && ToRecord(k, info[k]) == Some(r)
      {
        var k :| k in keys[1..] && ToRecord(k, info[k]) == Some(r);
        assert k in keys;
      }
    }
  }

  lemma {:induction false} BuildFromAll(keys: seq<Value>, info: map<Value, DocInfo>)
    requires forall k :: k in keys ==> k in info
    requires BuildFrom(keys, info).1
    ensures |BuildFrom(keys, info).0| == |keys|
    ensures forall i :: 0 <= i < |keys| ==> ToRecord(keys[i], info[keys[i]]) == Some(BuildFrom(keys, info).0[i])
    decreases |keys|
  {
    if keys != [] {
      BuildFromAll(keys[1..], info);
      forall i | 1 <= i < |keys|
        ensures ToRecord(keys[i], info[keys[i]]) == Some(BuildFrom(keys, info).0[i])
      {
        assert keys[i] == keys[1..][i - 1];
      }
    }
  }

  /** Every record counts the stored chunks that carry its document id. */
  lemma ListDocumentsCounts(order: seq<string>, documents: map<string, string>, metadatas: map<string, Metadata>)
    ensures forall r :: r in ListDocumentsOf(order, documents, metadatas) ==>
      r.chunksIndexed == CountDoc(StoredMetadatas(order, documents, metadatas), Str(r.docId))
  {
    var metas := StoredMetadatas(order, documents, metadatas);
    var g := GroupFrom(NoGroups, metas);
    if metas != [] && g.Some? {
      GroupFromOk(NoGroups, metas);
      var keys, info := g.value.keys, g.value.info;
      var built := BuildFrom(keys, info);
      BuildFromMembers(keys, info);
      forall r | r in ListDocumentsOf(order, documents, metadatas)
        ensures r.chunksIndexed == CountDoc(metas, Str(r.docId))
      {
        if built.1 {
          assert r in multiset(SortBy(built.0, Later));
        }
        assert r in built.0;
        var k :| k in keys && ToRecord(k, info[k]) == Some(r);
        GroupFromKeys(NoGroups, metas, k);
        GroupFromCounts(NoGroups, metas, k);
      }
    }
  }

  /** Whether every record of the listing could be built. */
  ghost predicate ListingBuilds(order: seq<string>, documents: map<string, string>, metadatas: map<string, Metadata>) {
    var metas := StoredMetadatas(order, documents, metadatas);
    var g := GroupFrom(NoGroups, metas);
    && metas != [] && g.Some?
    && GroupsOk(g.value)
    && BuildFrom(g.value.keys, g.value.info).1
  }

  /** A complete listing is ordered by upload time, latest first. */
  lemma ListDocumentsSorted(order: seq<string>, documents: map<string, string>, metadatas: map<string, Metadata>)
    requires ListingBuilds(order, documents, metadatas)
    ensures SortedBy(ListDocumentsOf(order, documents, metadatas), Later)
  {
    var metas := StoredMetadatas(order, documents, metadatas);
    var g := GroupFrom(NoGroups, metas).value;
    LaterIsStrictWeakOrder();
    SortBySorted(BuildFrom(g.keys, g.info).0, Later);
  }

  /** A complete listing holds the records built for the document ids. */
  lemma ListingRecords(order: seq<string>, documents: map<string, string>, metadatas: map<string, Metadata>)
    requires ListingBuilds(order, documents, metadatas)
    ensures var g := GroupFrom(NoGroups, StoredMetadatas(order, documents, metadatas)).value;
      multiset(ListDocumentsOf(order, documents, metadatas)) == multiset(BuildFrom(g.keys, g.info).0)
  {
  }

  lemma ListedIdsStored(order: seq<string>, documents: map<string, string>, metadatas: map<string, Metadata>,
                        r: DocumentMetadata)
    requires ListingBuilds(order, documents, metadatas)
    requires r in ListDocumentsOf(order, documents, metadatas)
    ensures r.docId != "" && CountDoc(StoredMetadatas(order, documents, metadatas), Str(r.docId)) > 0
  {
    var metas := StoredMetadatas(order, documents, metadatas);
    var g := GroupFrom(NoGroups, metas).value;
    var built := BuildFrom(g.keys, g.info);
    ListingRecords(order, documents, metadatas);
    assert r in multiset(built.0);
    BuildFromAll(g.keys, g.info);
    var i :| 0 <= i < |built.0| && built.0[i] == r;
    assert g.keys[i] in g.info;
    GroupFromKeys(NoGroups, metas, Str(r.docId));
  }

  lemma StoredIdsListed(order: seq<string>, documents: map<string, string>, metadatas: map<string, Metadata>,
                        id: string)
    requires ListingBuilds(order, documents, metadatas)
    requires id != "" && CountDoc(StoredMetadatas(order, documents, metadatas), Str(id)) > 0
    ensures exists r :: r in ListDocumentsOf(order, documents, metadatas) && r.docId == id
  {
    var metas := StoredMetadatas(order, documents, metadatas);
    var g := GroupFrom(NoGroups, metas).value;
    var built := BuildFrom(g.keys, g.info);
    GroupFromKeys(NoGroups, metas, Str(id));
    BuildFromAll(g.keys, g.info);
    assert Str(id) in g.keys;
    var i :| 0 <= i < |g.keys| && g.keys[i] == Str(id);
    ListingRecords(order, documents, metadatas);
    assert built.0[i] in multiset(ListDocumentsOf(order, documents, metadatas));
  }

  /** A complete listing names exactly the non-empty document ids that
      some stored chunk carries. */
  lemma ListDocumentsComplete(order: seq<string>, documents: map<string, string>, metadatas: map<string, Metadata>,
                              id: string)
    requires ListingBuilds(order, documents, metadatas)
    ensures (exists r :: r in ListDocumentsOf(order, documents, metadatas) && r.docId == id) <==>
      id != "" && CountDoc(StoredMetadatas(order, documents, metadatas), Str(id)) > 0
  {
    if exists r :: r in ListDocumentsOf(order, documents, metadatas) && r.docId == id {
      var r :| r in ListDocumentsOf(order, documents, metadatas) && r.docId == id;
      ListedIdsStored(order, documents, metadatas, r);
    }
    if id != "" && CountDoc(StoredMetadatas(order, documents, metadatas), Str(id)) > 0 {
      StoredIdsListed(order, documents, metadatas, id);
    }
  }
}
