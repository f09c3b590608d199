/** The `SimpleVectorStore` class. Both trees have one
    (backend/app/services/vector_store.py and app/services/vector_store.py);
    their `add`, `get`, `query` and `delete` are the same code except for
    the metadata filter, which is passed here as the predicate `keep`
    (`where is None` passes the predicate that accepts everything).
    Persistence to disk (`_load`, `_save`) is not modelled. */
module SimpleStore {
  import opened Wrappers
  import opened Strings
  import opened MetaValues
  import opened StoreState

  /** Accepts every metadata dictionary: the `where is None` case. */
  predicate AnyMetadata(m: Metadata) {
    true
  }

  class SimpleVectorStore {
    /** The stored ids in the dictionaries' iteration order. */
    var order: seq<string>
    var documents: map<string, string>
    var embeddings: map<string, Embedding>
    var metadatas: map<string, Metadata>

    ghost predicate Valid()
      reads this
    {
      Consistent(order, documents, embeddings, metadatas)
    }

    constructor()
      ensures Valid()
      ensures order == [] && documents == map[] && embeddings == map[] && metadatas == map[]
    {
      order := [];
      documents := map[];
      embeddings := map[];
      metadatas := map[];
    }

    /** `add`: stores text, embedding and metadata under each id in turn,
        overwriting an id already stored. */
    method Add(ids: seq<string>, docs: seq<string>, embs: seq<Embedding>, metas: seq<Metadata>)
      requires Valid()
      requires |ids| <= |docs| && |ids| <= |embs| && |ids| <= |metas|
      modifies this
      ensures Valid()
      ensures order == AddOrder(old(order), ids)
      ensures documents == Assign(old(documents), ids, docs)
      ensures embeddings == Assign(old(embeddings), ids, embs)
      ensures metadatas == Assign(old(metadatas), ids, metas)
    {
      var i := 0;
      while i < |ids|
        invariant i <= |ids| && Valid()
        invariant AddOrder(order, ids[i..]) == AddOrder(old(order), ids)
        invariant Assign(documents, ids[i..], docs[i..]) == Assign(old(documents), ids, docs)
        invariant Assign(embeddings, ids[i..], embs[i..]) == Assign(old(embeddings), ids, embs)
        invariant Assign(metadatas, ids[i..], metas[i..]) == Assign(old(metadatas), ids, metas)
      {
        var id := ids[i];
        AddOrderAt(order, ids, i);
        AssignAt(documents, ids, docs, i);
        AssignAt(embeddings, ids, embs, i);
        AssignAt(metadatas, ids, metas, i);
        if id in metadatas {
          AddPresent(order, documents, embeddings, metadatas, id, docs[i], embs[i], metas[i]);
        } else {
          AddAbsent(order, documents, embeddings, metadatas, id, docs[i], embs[i], metas[i]);
          order := order + [id];
        }
        documents := documents[id := docs[i]];
        embeddings := embeddings[id := embs[i]];
        metadatas := metadatas[id := metas[i]];
        i := i + 1;
      }
      assert ids[i..] == [];
    }

    /** `get`: the ids whose metadata `keep` accepts, in store order, with
        their texts and metadata when `wanted` asks for them. */
    method Get(keep: Metadata -> bool, wanted: Option<seq<string>>) returns (r: GetResult)
      requires Valid()
      ensures r == GetOf(order, documents, metadatas, keep, wanted)
    {
      var resultIds, resultDocuments, resultMetadatas :=
        CollectMatching(order, documents, embeddings, metadatas, keep,
                        Wants(wanted, "documents"), Wants(wanted, "metadatas"));
      GetLoopDone(order, documents, metadatas, keep, wanted, resultIds, resultDocuments, resultMetadatas);
      r := GetResult(resultIds,
                     if resultDocuments != [] then Some(resultDocuments) else None,
                     if resultMetadatas != [] then Some(resultMetadatas) else None);
    }

    /** The ids `keep` accepts, in store order: the first loop of `query`
        and of `delete`. */
    method Candidates(keep: Metadata -> bool) returns (candidates: seq<string>)
      requires Valid()
      ensures candidates == Selected(order, metadatas, keep)
    {
      candidates := [];
      var i := 0;
      while i < |order|
        invariant SelectLoop(order, metadatas, keep, candidates, i)
      {
        var id := order[i];
        ConsistentAt(order, documents, embeddings, metadatas, i);
        SelectLoopStep(order, metadatas, keep, candidates, i);
        if keep(metadatas[id]) {
          candidates := candidates + [id];
        }
        i := i + 1;
      }
      SelectLoopDone(order, metadatas, keep, candidates);
    }

    /** `query`: the `n` candidates nearest to `query`, nearest first, ties
        in store order; nothing when the store or the candidate list is
        empty. */
    method Query(query: Embedding, n: int, keep: Metadata -> bool, distance: (Embedding, Embedding) -> real)
      returns (r: QueryResult)
      requires Valid()
      ensures r == QueryOf(order, documents, embeddings, metadatas, query, n, keep, distance)
    {
      if embeddings == map[] {
        return NoResults;
      }
      var candidates := Candidates(keep);
      if candidates == [] {
        return NoResults;
      }
      SelectedSpec(order, metadatas, keep);
      var scored := ScoreAll(candidates, embeddings, query, distance);
      assert scored == CandidatesScored(order, embeddings, metadatas, query, keep, distance);
      var sorted := Sorting.SortBy(scored, Closer);
      var top := TakePy(sorted, n);
      r := ResultOf(top, documents, metadatas);
    }

    /** `delete`: removes the ids `keep` accepts from all three
        dictionaries and returns how many there were. */
    method Delete(keep: Metadata -> bool) returns (count: nat)
      requires Valid()
      modifies this
      ensures Valid()
      ensures count == |Selected(old(order), old(metadatas), keep)|
      ensures order == Without(old(order), Elems(Selected(old(order), old(metadatas), keep)))
      ensures documents == old(documents) - Elems(Selected(old(order), old(metadatas), keep))
      ensures embeddings == old(embeddings) - Elems(Selected(old(order), old(metadatas), keep))
      ensures metadatas == old(metadatas) - Elems(Selected(old(order), old(metadatas), keep))
    {
      var toDelete := Candidates(keep);
      ghost var order0, documents0, embeddings0, metadatas0 := order, documents, embeddings, metadatas;
      var j := 0;
      DeleteLoopInit(order, documents, embeddings, metadatas, toDelete);
      while j < |toDelete|
        invariant j <= |toDelete|
        invariant DeleteLoop(order0, documents0, embeddings0, metadatas0, toDelete, j,
                             order, documents, embeddings, metadatas)
      {
        var id := toDelete[j];
        DeleteLoopStep(order0, documents0, embeddings0, metadatas0, toDelete, j,
                       order, documents, embeddings, metadatas);
        documents := documents - {id};
        embeddings := embeddings - {id};
        metadatas := metadatas - {id};
        order := Without(order, {id});
        j := j + 1;
      }
      DeleteLoopDone(order0, documents0, embeddings0, metadatas0, toDelete,
                     order, documents, embeddings, metadatas);
      count := |toDelete|;
    }
  }

  /** After `j` of the ids to delete, they are gone from the order and the
      three dictionaries. */
  ghost predicate DeleteLoop(order0: seq<string>, documents0: map<string, string>,
                             embeddings0: map<string, Embedding>, metadatas0: map<string, Metadata>,
                             toDelete: seq<string>, j: nat, order: seq<string>, documents: map<string, string>,
                             embeddings: map<string, Embedding>, metadatas: map<string, Metadata>)
    requires j <= |toDelete|
  {
    var gone := Elems(toDelete[..j]);
    order == Without(order0, gone) && documents == documents0 - gone
    && embeddings == embeddings0 - gone && metadatas == metadatas0 - gone
  }

  lemma DeleteLoopInit(order: seq<string>, documents: map<string, string>,
                       embeddings: map<string, Embedding>, metadatas: map<string, Metadata>, toDelete: seq<string>)
    ensures DeleteLoop(order, documents, embeddings, metadatas, toDelete, 0, order, documents, embeddings, metadatas)
  {
    assert Elems(toDelete[..0]) == {};
    WithoutNothing(order);
    assert documents - {} == documents && embeddings - {} == embeddings && metadatas - {} == metadatas;
  }

  lemma DeleteLoopStep(order0: seq<string>, documents0: map<string, string>,
                       embeddings0: map<string, Embedding>, metadatas0: map<string, Metadata>,
                       toDelete: seq<string>, j: nat, order: seq<string>, documents: map<string, string>,
                       embeddings: map<string, Embedding>, metadatas: map<string, Metadata>)
    requires j < |toDelete|
    requires DeleteLoop(order0, documents0, embeddings0, metadatas0, toDelete, j, order, documents, embeddings, metadatas)
    ensures DeleteLoop(order0, documents0, embeddings0, metadatas0, toDelete, j + 1, Without(order, {toDelete[j]}),
                       documents - {toDelete[j]}, embeddings - {toDelete[j]}, metadatas - {toDelete[j]})
  {
    var gone := Elems(toDelete[..j]);
    var id := toDelete[j];
    assert Elems(toDelete[..j + 1]) == gone + {id} by {
      assert toDelete[..j + 1] == toDelete[..j] + [id];
    }
    WithoutTwice(order0, gone, id);
    MinusTwice(documents0, gone, id);
    MinusTwice(embeddings0, gone, id);
    MinusTwice(metadatas0, gone, id);
  }

  lemma MinusTwice<V>(m: map<string, V>, gone: set<string>, id: string)
    ensures (m - gone) - {id} == m - (gone + {id})
  {
  }

  lemma DeleteLoopDone(order0: seq<string>, documents0: map<string, string>,
                       embeddings0: map<string, Embedding>, metadatas0: map<string, Metadata>,
                       toDelete: seq<string>, order: seq<string>, documents: map<string, string>,
                       embeddings: map<string, Embedding>, metadatas: map<string, Metadata>)
    requires Consistent(order0, documents0, embeddings0, metadatas0)
    requires DeleteLoop(order0, documents0, embeddings0, metadatas0, toDelete, |toDelete|,
                        order, documents, embeddings, metadatas)
    ensures var gone := Elems(toDelete);
      order == Without(order0, gone) && documents == documents0 - gone
      && embeddings == embeddings0 - gone && metadatas == metadatas0 - gone
    ensures Consistent(order, documents, embeddings, metadatas)
  {
    assert toDelete[..|toDelete|] == toDelete;
    DeleteKeepsConsistent(order0, documents0, embeddings0, metadatas0, Elems(toDelete));
  }

  /** The second loop of `query`: pairs each candidate id with its
      distance from the query embedding. */
  method ScoreAll(ids: seq<string>, embeddings: map<string, Embedding>, query: Embedding,
                  distance: (Embedding, Embedding) -> real) returns (scored: seq<(string, real)>)
    requires forall id :: id in ids ==> id in embeddings
    ensures scored == Scored(ids, embeddings, query, distance)
  {
    scored := [];
    var j := 0;
    while j < |ids|
      invariant j <= |ids|
      invariant scored == Scored(ids[..j], embeddings, query, distance)
    {
      var id := ids[j];
      assert ids[..j + 1] == ids[..j] + [id];
      scored := scored + [(id, distance(query, embeddings[id]))];
      j := j + 1;
    }
    assert ids[..j] == ids;
  }

  /** The loop of `get`: walks the stored ids in order and collects those
      `keep` accepts, with their texts and metadata when wanted. */
  method CollectMatching(order: seq<string>, documents: map<string, string>, embeddings: map<string, Embedding>,
                         metadatas: map<string, Metadata>, keep: Metadata -> bool,
                         wantsDocuments: bool, wantsMetadatas: bool)
    returns (ids: seq<string>, docs: seq<string>, metas: seq<Metadata>)
    requires Consistent(order, documents, embeddings, metadatas)
    ensures GetLoop(order, documents, metadatas, keep, wantsDocuments, wantsMetadatas, ids, docs, metas, |order|)
  {
    ids, docs, metas := [], [], [];
    var i := 0;
    while i < |order|
      invariant GetLoop(order, documents, metadatas, keep, wantsDocuments, wantsMetadatas, ids, docs, metas, i)
    {
      var id := order[i];
      ConsistentAt(order, documents, embeddings, metadatas, i);
      GetLoopStep(order, documents, metadatas, keep, wantsDocuments, wantsMetadatas, ids, docs, metas, i);
      if keep(metadatas[id]) {
        ids := ids + [id];
        docs := if wantsDocuments then docs + [documents[id]] else docs;
        metas := if wantsMetadatas then metas + [metadatas[id]] else metas;
      }
      i := i + 1;
    }
  }

  /** After `i` stored ids, `ids` holds those of them `keep` accepts and
      the two other lists their texts and metadata, when wanted. */
  ghost predicate GetLoop(order: seq<string>, documents: map<string, string>, metadatas: map<string, Metadata>,
                          keep: Metadata -> bool, wantsDocuments: bool, wantsMetadatas: bool,
                          ids: seq<string>, docs: seq<string>, metas: seq<Metadata>, i: nat)
  {
    SelectLoop(order, metadatas, keep, ids, i)
    && docs == (if wantsDocuments then DocumentsOf(ids, documents) else [])
    && metas == (if wantsMetadatas then MetadatasOf(ids, metadatas) else [])
  }

  lemma GetLoopStep(order: seq<string>, documents: map<string, string>, metadatas: map<string, Metadata>,
                    keep: Metadata -> bool, wantsDocuments: bool, wantsMetadatas: bool,
                    ids: seq<string>, docs: seq<string>, metas: seq<Metadata>, i: nat)
    requires GetLoop(order, documents, metadatas, keep, wantsDocuments, wantsMetadatas, ids, docs, metas, i)
    requires i < |order| && order[i] in metadatas && order[i] in documents
    ensures var id := order[i];
      keep(metadatas[id]) ==>
        GetLoop(order, documents, metadatas, keep, wantsDocuments, wantsMetadatas, ids + [id],
                if wantsDocuments then docs + [documents[id]] else docs,
                if wantsMetadatas then metas + [metadatas[id]] else metas, i + 1)
    ensures !keep(metadatas[order[i]]) ==>
      GetLoop(order, documents, metadatas, keep, wantsDocuments, wantsMetadatas, ids, docs, metas, i + 1)
  {
    var id := order[i];
    SelectLoopStep(order, metadatas, keep, ids, i);
    DocumentsOfSnoc(ids, id, documents);
    MetadatasOfSnoc(ids, id, metadatas);
  }

  lemma GetLoopDone(order: seq<string>, documents: map<string, string>, metadatas: map<string, Metadata>,
                    keep: Metadata -> bool, wanted: Option<seq<string>>,
                    ids: seq<string>, docs: seq<string>, metas: seq<Metadata>)
    requires GetLoop(order, documents, metadatas, keep, Wants(wanted, "documents"), Wants(wanted, "metadatas"),
                     ids, docs, metas, |order|)
    ensures GetResult(ids, if docs != [] then Some(docs) else None, if metas != [] then Some(metas) else None)
            == GetOf(order, documents, metadatas, keep, wanted)
  {
    SelectLoopDone(order, metadatas, keep, ids);
    assert |DocumentsOf(ids, documents)| == |ids| == |MetadatasOf(ids, metadatas)|;
  }

  /** After `i` stored ids, `acc` holds those of them `keep` accepts. */
  ghost predicate SelectLoop(order: seq<string>, metadatas: map<string, Metadata>, keep: Metadata -> bool,
                             acc: seq<string>, i: nat)
  {
    i <= |order| && acc + Selected(order[i..], metadatas, keep) == Selected(order, metadatas, keep)
  }

  lemma SelectLoopStep(order: seq<string>, metadatas: map<string, Metadata>, keep: Metadata -> bool,
                       acc: seq<string>, i: nat)
    requires SelectLoop(order, metadatas, keep, acc, i) && i < |order| && order[i] in metadatas
    ensures keep(metadatas[order[i]]) ==> SelectLoop(order, metadatas, keep, acc + [order[i]], i + 1)
    ensures !keep(metadatas[order[i]]) ==> SelectLoop(order, metadatas, keep, acc, i + 1)
  {
    SelectedAt(order, metadatas, keep, i);
    var rest := Selected(order[i + 1..], metadatas, keep);
    if keep(metadatas[order[i]]) {
      Regroup(acc, [order[i]], rest, Selected(order, metadatas, keep));
    } else {
      assert [] + rest == rest;
    }
  }

  lemma SelectLoopDone(order: seq<string>, metadatas: map<string, Metadata>, keep: Metadata -> bool,
                       acc: seq<string>)
    requires SelectLoop(order, metadatas, keep, acc, |order|)
    ensures acc == Selected(order, metadatas, keep)
  {
    assert order[|order|..] == [];
    assert acc + [] == acc;
  }

  /** A stored id has an entry in each dictionary. */
  lemma ConsistentAt(order: seq<string>, documents: map<string, string>, embeddings: map<string, Embedding>,
                     metadatas: map<string, Metadata>, i: nat)
    requires Consistent(order, documents, embeddings, metadatas) && i < |order|
    ensures order[i] in metadatas && order[i] in documents && order[i] in embeddings
  {
    assert order[i] in Elems(order);
  }

  /** One assignment of `add` keeps the store consistent. */
  lemma AddPresent(order: seq<string>, documents: map<string, string>, embeddings: map<string, Embedding>,
                   metadatas: map<string, Metadata>, id: string, d: string, e: Embedding, m: Metadata)
    requires Consistent(order, documents, embeddings, metadatas) && id in metadatas
    ensures id in order
    ensures Consistent(order, documents[id := d], embeddings[id := e], metadatas[id := m])
  {
    assert id in Elems(order);
    assert metadatas[id := m].Keys == metadatas.Keys;
  }

  lemma AddAbsent(order: seq<string>, documents: map<string, string>, embeddings: map<string, Embedding>,
                  metadatas: map<string, Metadata>, id: string, d: string, e: Embedding, m: Metadata)
    requires Consistent(order, documents, embeddings, metadatas) && id !in metadatas
    ensures id !in order
    ensures Consistent(order + [id], documents[id := d], embeddings[id := e], metadatas[id := m])
  {
    assert id !in Elems(order);
    AddOneSpec(order, id);
    assert Elems(order + [id]) == Elems(order) + {id};
  }

  lemma AddOrderAt(order: seq<string>, ids: seq<string>, i: nat)
    requires i < |ids|
    ensures AddOrder(order, ids[i..]) == AddOrder(if ids[i] in order then order else order + [ids[i]], ids[i + 1..])
  {
    assert ids[i..][0] == ids[i] && ids[i..][1..] == ids[i + 1..];
  }

  lemma AssignAt<V>(m: map<string, V>, keys: seq<string>, vals: seq<V>, i: nat)
    requires i < |keys| <= |vals|
    ensures Assign(m, keys[i..], vals[i..]) == Assign(m[keys[i] := vals[i]], keys[i + 1..], vals[i + 1..])
  {
    assert keys[i..][0] == keys[i] && keys[i..][1..] == keys[i + 1..];
    assert vals[i..][0] == vals[i] && vals[i..][1..] == vals[i + 1..];
  }

  lemma SelectedAt(order: seq<string>, metadatas: map<string, Metadata>, keep: Metadata -> bool, i: nat)
    requires i < |order| && order[i] in metadatas
    ensures Selected(order[i..], metadatas, keep)
            == (if keep(metadatas[order[i]]) then [order[i]] else []) + Selected(order[i + 1..], metadatas, keep)
  {
    assert order[i..][0] == order[i] && order[i..][1..] == order[i + 1..];
  }

  lemma Regroup<T>(acc: seq<T>, a: seq<T>, b: seq<T>, whole: seq<T>)
    requires acc + (a + b) == whole
    ensures (acc + a) + b == whole
  {
  }

  /** Removing the same ids from the order and the three dictionaries
      keeps the store consistent. */
  lemma DeleteKeepsConsistent(order: seq<string>, documents: map<string, string>,
                              embeddings: map<string, Embedding>, metadatas: map<string, Metadata>,
                              gone: set<string>)
    requires Consistent(order, documents, embeddings, metadatas)
    ensures Consistent(Without(order, gone), documents - gone, embeddings - gone, metadatas - gone)
  {
    WithoutSpec(order, gone);
  }
}
