/** The state of an in-memory vector store (the `SimpleVectorStore` class
    of backend/app/services/vector_store.py and app/services/vector_store.py)
    as values: the insertion order of the stored ids and the three id-keyed
    dictionaries, with the functions that say what `add`, `get`, `query`
    and `delete` leave behind or return. The methods of the class are
    proved against these functions. */
module StoreState {
  import opened Wrappers
  import opened Strings
  import opened Sorting
  import opened MetaValues

  /** An embedding vector. */
  type Embedding = seq<real>

  predicate Distinct(xs: seq<string>) {
    forall i, j :: 0 <= i < j < |xs| ==> xs[i] != xs[j]
  }

  /** The three dictionaries hold the same ids, and `order` lists each of
      them once, in the order the dictionaries iterate. */
  predicate Consistent(order: seq<string>, documents: map<string, string>,
                       embeddings: map<string, Embedding>, metadatas: map<string, Metadata>)
  {
    Distinct(order) && Elems(order) == metadatas.Keys
    && documents.Keys == metadatas.Keys && embeddings.Keys == metadatas.Keys
  }

  // ---------------------------------------------------------------------
  // add
  // ---------------------------------------------------------------------

  /** The iteration order of a dictionary after `d[k] = v` for each `k` of
      `keys` in turn: a new key goes to the end, a key already present
      keeps its place. */
  function AddOrder(order: seq<string>, keys: seq<string>): seq<string>
    decreases |keys|
  {
    if keys == [] then order
    else AddOrder(if keys[0] in order then order else order + [keys[0]], keys[1..])
  }

  /** The dictionary `m` after `m[keys[i]] = vals[i]` for each `i` in turn. */
  function Assign<V>(m: map<string, V>, keys: seq<string>, vals: seq<V>): map<string, V>
    requires |keys| <= |vals|
    decreases |keys|
  {
    if keys == [] then m
    else Assign(m[keys[0] := vals[0]], keys[1..], vals[1..])
  }

  /** Position `i` holds the last occurrence of its key. */
  predicate LastOccurrence(keys: seq<string>, i: nat)
    requires i < |keys|
  {
    forall j :: i < j < |keys| ==> keys[j] != keys[i]
  }

  /** After the assignments the dictionary holds the old keys and the new
      ones; a key not assigned keeps its value, and an assigned key holds
      the value of its last assignment. */
  lemma AssignSpec<V>(m: map<string, V>, keys: seq<string>, vals: seq<V>)
    requires |keys| <= |vals|
    ensures forall k :: k in Assign(m, keys, vals) <==> k in m || k in keys
    ensures forall k :: k in m && k !in keys ==> Assign(m, keys, vals)[k] == m[k]
    ensures forall i :: 0 <= i < |keys| && LastOccurrence(keys, i) ==> Assign(m, keys, vals)[keys[i]] == vals[i]
  {
    AssignKeys(m, keys, vals);
    AssignOthers(m, keys, vals);
    forall i | 0 <= i < |keys| && LastOccurrence(keys, i)
      ensures Assign(m, keys, vals)[keys[i]] == vals[i]
    {
      AssignLast(m, keys, vals, i);
    }
  }

  lemma {:induction false} AssignKeys<V>(m: map<string, V>, keys: seq<string>, vals: seq<V>)
    requires |keys| <= |vals|
    ensures Assign(m, keys, vals).Keys == m.Keys + Elems(keys)
    decreases |keys|
  {
    if keys != [] {
      AssignKeys(m[keys[0] := vals[0]], keys[1..], vals[1..]);
      ElemsCons(keys);
    }
  }

  lemma {:induction false} AssignOthers<V>(m: map<string, V>, keys: seq<string>, vals: seq<V>)
    requires |keys| <= |vals|
    ensures forall k :: k in m && k !in keys ==> k in Assign(m, keys, vals) && Assign(m, keys, vals)[k] == m[k]
    decreases |keys|
  {
    if keys != [] {
      AssignOthers(m[keys[0] := vals[0]], keys[1..], vals[1..]);
      ElemsCons(keys);
    }
  }

  lemma {:induction false} AssignLast<V>(m: map<string, V>, keys: seq<string>, vals: seq<V>, i: nat)
    requires |keys| <= |vals| && i < |keys| && LastOccurrence(keys, i)
    ensures keys[i] in Assign(m, keys, vals) && Assign(m, keys, vals)[keys[i]] == vals[i]
    decreases |keys|
  {
    var m' := m[keys[0] := vals[0]];
    if i == 0 {
      AssignKeys(m', keys[1..], vals[1..]);
      AssignOthers(m', keys[1..], vals[1..]);
      assert keys[0] !in keys[1..] by {
        forall j | 0 <= j < |keys[1..]| ensures keys[1..][j] != keys[0] {
          assert keys[1..][j] == keys[j + 1];
        }
      }
    } else {
      assert keys[1..][i - 1] == keys[i] && vals[1..][i - 1] == vals[i];
      assert LastOccurrence(keys[1..], i - 1) by {
        forall j | i - 1 < j < |keys[1..]| ensures keys[1..][j] != keys[1..][i - 1] {
          assert keys[1..][j] == keys[j + 1];
        }
      }
      AssignLast(m', keys[1..], vals[1..], i - 1);
    }
  }

  /** Adding keeps the ids distinct, holds the old ids and the new ones,
      and leaves the old ids where they were. */
  lemma AddOrderSpec(order: seq<string>, keys: seq<string>)
    requires Distinct(order)
    ensures Distinct(AddOrder(order, keys))
    ensures Elems(AddOrder(order, keys)) == Elems(order) + Elems(keys)
    ensures |order| <= |AddOrder(order, keys)| && AddOrder(order, keys)[..|order|] == order
  {
    AddOrderDistinct(order, keys);
    AddOrderElems(order, keys);
    AddOrderKeepsOld(order, keys);
  }

  lemma {:induction false} AddOrderDistinct(order: seq<string>, keys: seq<string>)
    requires Distinct(order)
    ensures Distinct(AddOrder(order, keys))
    decreases |keys|
  {
    if keys != [] {
      AddOneSpec(order, keys[0]);
      AddOrderDistinct(if keys[0] in order then order else order + [keys[0]], keys[1..]);
    }
  }

  lemma {:induction false} AddOrderElems(order: seq<string>, keys: seq<string>)
    ensures Elems(AddOrder(order, keys)) == Elems(order) + Elems(keys)
    decreases |keys|
  {
    if keys != [] {
      var next := if keys[0] in order then order else order + [keys[0]];
      assert Elems(next) == Elems(order) + {keys[0]} by {
        if keys[0] !in order {
          assert next == order + [keys[0]];
        }
      }
      AddOrderElems(next, keys[1..]);
      ElemsCons(keys);
    }
  }

  lemma {:induction false} AddOrderKeepsOld(order: seq<string>, keys: seq<string>)
    ensures |order| <= |AddOrder(order, keys)| && AddOrder(order, keys)[..|order|] == order
    decreases |keys|
  {
    if keys != [] {
      var next := if keys[0] in order then order else order + [keys[0]];
      assert next[..|order|] == order;
      AddOrderKeepsOld(next, keys[1..]);
      var r := AddOrder(next, keys[1..]);
      assert AddOrder(order, keys) == r;
      assert r[..|order|] == r[..|next|][..|order|];
    }
  }

  lemma ElemsCons(xs: seq<string>)
    requires xs != []
    ensures Elems(xs) == {xs[0]} + Elems(xs[1..])
  {
    assert xs == [xs[0]] + xs[1..];
  }

  /** One assignment to the dictionary keeps the ids distinct. */
  lemma AddOneSpec(order: seq<string>, k: string)
    requires Distinct(order)
    ensures Distinct(if k in order then order else order + [k])
  {
    if k !in order {
      var next := order + [k];
      forall i, j | 0 <= i < j < |next| ensures next[i] != next[j] {
        if j == |order| {
          assert next[i] == order[i];
        }
      }
    }
  }

  // ---------------------------------------------------------------------
  // get, delete: the ids a filter selects
  // ---------------------------------------------------------------------

  /** The ids of `order` whose metadata `keep` accepts, in order. */
  function Selected(order: seq<string>, metadatas: map<string, Metadata>, keep: Metadata -> bool): seq<string>
    decreases |order|
  {
    if order == [] then []
    else (if order[0] in metadatas && keep(metadatas[order[0]]) then [order[0]] else [])
         + Selected(order[1..], metadatas, keep)
  }

  /** The selected ids are exactly the stored ids the filter accepts, each
      once, in store order. */
  lemma SelectedSpec(order: seq<string>, metadatas: map<string, Metadata>, keep: Metadata -> bool)
    ensures forall id :: id in Selected(order, metadatas, keep) <==>
      id in order && id in metadatas && keep(metadatas[id])
    ensures |Selected(order, metadatas, keep)| <= |order|
    ensures Distinct(order) ==> Distinct(Selected(order, metadatas, keep))
  {
    SelectedMembers(order, metadatas, keep);
    SelectedLength(order, metadatas, keep);
    if Distinct(order) {
      SelectedDistinct(order, metadatas, keep);
    }
  }

  lemma {:induction false} SelectedMembers(order: seq<string>, metadatas: map<string, Metadata>,
                                           keep: Metadata -> bool)
    ensures forall id :: id in Selected(order, metadatas, keep) <==>
      id in order && id in metadatas && keep(metadatas[id])
    decreases |order|
  {
    if order != [] {
      SelectedMembers(order[1..], metadatas, keep);
      assert forall id :: id in order <==> id == order[0] || id in order[1..] by {
        assert order == [order[0]] + order[1..];
      }
    }
  }

  lemma {:induction false} SelectedLength(order: seq<string>, metadatas: map<string, Metadata>,
                                          keep: Metadata -> bool)
    ensures |Selected(order, metadatas, keep)| <= |order|
    decreases |order|
  {
    if order != [] {
      SelectedLength(order[1..], metadatas, keep);
    }
  }

  lemma {:induction false} SelectedDistinct(order: seq<string>, metadatas: map<string, Metadata>,
                                            keep: Metadata -> bool)
    requires Distinct(order)
    ensures Distinct(Selected(order, metadatas, keep))
    decreases |order|
  {
    if order != [] {
      var head := if order[0] in metadatas && keep(metadatas[order[0]]) then [order[0]] else [];
      var rest := Selected(order[1..], metadatas, keep);
      assert Distinct(order[1..]) by {
        forall i, j | 0 <= i < j < |order[1..]| ensures order[1..][i] != order[1..][j] {
          assert order[1..][i] == order[i + 1] && order[1..][j] == order[j + 1];
        }
      }
      SelectedDistinct(order[1..], metadatas, keep);
      SelectedMembers(order[1..], metadatas, keep);
      assert order[0] !in order[1..] by {
        forall j | 0 <= j < |order[1..]| ensures order[1..][j] != order[0] {
          assert order[1..][j] == order[j + 1];
        }
      }
      DistinctCons(head, rest);
    }
  }

  lemma DistinctCons(head: seq<string>, rest: seq<string>)
    requires |head| <= 1 && Distinct(rest) && (head != [] ==> head[0] !in rest)
    ensures Distinct(head + rest)
  {
    var r := head + rest;
    forall i, j | 0 <= i < j < |r| ensures r[i] != r[j] {
      if head != [] && i == 0 {
        assert r[j] == rest[j - 1];
      } else {
        assert r[i] == rest[i - |head|] && r[j] == rest[j - |head|];
      }
    }
  }

  /** `order` without the ids in `gone`, the others keeping their order. */
  function Without(order: seq<string>, gone: set<string>): seq<string>
    decreases |order|
  {
    if order == [] then []
    else (if order[0] in gone then [] else [order[0]]) + Without(order[1..], gone)
  }

  lemma {:induction false} WithoutSpec(order: seq<string>, gone: set<string>)
    ensures Elems(Without(order, gone)) == Elems(order) - gone
    ensures Distinct(order) ==> Distinct(Without(order, gone))
    decreases |order|
  {
    if order != [] {
      WithoutSpec(order[1..], gone);
      var head := if order[0] in gone then [] else [order[0]];
      var rest := Without(order[1..], gone);
      assert Without(order, gone) == head + rest;
      ElemsCons(order);
      assert Elems(head + rest) == Elems(head) + Elems(rest);
      if Distinct(order) {
        assert Distinct(order[1..]) by {
          forall i, j | 0 <= i < j < |order[1..]| ensures order[1..][i] != order[1..][j] {
            assert order[1..][i] == order[i + 1] && order[1..][j] == order[j + 1];
          }
        }
        assert order[0] !in order[1..] by {
          forall j | 0 <= j < |order[1..]| ensures order[1..][j] != order[0] {
            assert order[1..][j] == order[j + 1];
          }
        }
        assert order[0] !in Elems(rest);
        DistinctCons(head, rest);
      }
    }
  }

  lemma {:induction false} WithoutNothing(order: seq<string>)
    ensures Without(order, {}) == order
    decreases |order|
  {
    if order != [] {
      WithoutNothing(order[1..]);
      assert order == [order[0]] + order[1..];
    }
  }

  /** Removing one more id from what is left is removing both at once. */
  lemma {:induction false} WithoutTwice(order: seq<string>, gone: set<string>, id: string)
    ensures Without(Without(order, gone), {id}) == Without(order, gone + {id})
    decreases |order|
  {
    if order != [] {
      WithoutTwice(order[1..], gone, id);
      var rest := Without(order[1..], gone);
      var both := Without(order[1..], gone + {id});
      if order[0] !in gone {
        var once := [order[0]] + rest;
        assert Without(order, gone) == once;
        assert once[0] == order[0] && once[1..] == rest;
        assert Without(once, {id}) == (if order[0] == id then [] else [order[0]]) + Without(rest, {id});
        assert Without(order, gone + {id}) == (if order[0] == id then [] else [order[0]]) + both;
      } else {
        assert Without(order, gone) == rest;
        assert Without(order, gone + {id}) == both;
      }
    }
  }

  // ---------------------------------------------------------------------
  // get
  // ---------------------------------------------------------------------

  /** What `get` returns: the selected ids, and their texts and metadata
      when asked for and there is at least one. */
  datatype GetResult = GetResult(ids: seq<string>, documents: Option<seq<string>>,
                                 metadatas: Option<seq<Metadata>>)

  /** Whether the list of wanted fields asks for `field`; no list asks for
      everything. */
  predicate Wants(wanted: Option<seq<string>>, field: string) {
    wanted.None? || field in wanted.value
  }

  /** `self.documents.get(id, "")` for each id. */
  function DocumentsOf(ids: seq<string>, documents: map<string, string>): (r: seq<string>)
    ensures |r| == |ids|
    ensures forall i :: 0 <= i < |ids| && ids[i] in documents ==> r[i] == documents[ids[i]]
  {
    seq(|ids|, i requires 0 <= i < |ids| => if ids[i] in documents then documents[ids[i]] else "")
  }

  /** `self.metadatas.get(id, {})` for each id. */
  function MetadatasOf(ids: seq<string>, metadatas: map<string, Metadata>): (r: seq<Metadata>)
    ensures |r| == |ids|
    ensures forall i :: 0 <= i < |ids| && ids[i] in metadatas ==> r[i] == metadatas[ids[i]]
  {
    seq(|ids|, i requires 0 <= i < |ids| => if ids[i] in metadatas then metadatas[ids[i]] else map[])
  }

  lemma DocumentsOfSnoc(ids: seq<string>, id: string, documents: map<string, string>)
    requires id in documents
    ensures DocumentsOf(ids + [id], documents) == DocumentsOf(ids, documents) + [documents[id]]
  {
  }

  lemma MetadatasOfSnoc(ids: seq<string>, id: string, metadatas: map<string, Metadata>)
    requires id in metadatas
    ensures MetadatasOf(ids + [id], metadatas) == MetadatasOf(ids, metadatas) + [metadatas[id]]
  {
  }

  function GetOf(order: seq<string>, documents: map<string, string>, metadatas: map<string, Metadata>,
                 keep: Metadata -> bool, wanted: Option<seq<string>>): GetResult
  {
    var ids := Selected(order, metadatas, keep);
    GetResult(ids,
              if Wants(wanted, "documents") && ids != [] then Some(DocumentsOf(ids, documents)) else None,
              if Wants(wanted, "metadatas") && ids != [] then Some(MetadatasOf(ids, metadatas)) else None)
  }

  // ---------------------------------------------------------------------
  // query
  // ---------------------------------------------------------------------

  /** Each candidate id with its distance from the query embedding. */
  function Scored(ids: seq<string>, embeddings: map<string, Embedding>, query: Embedding,
                  distance: (Embedding, Embedding) -> real): (r: seq<(string, real)>)
    requires forall id :: id in ids ==> id in embeddings
    ensures |r| == |ids|
    ensures forall i :: 0 <= i < |ids| ==> r[i] == (ids[i], distance(query, embeddings[ids[i]]))
  {
    seq(|ids|, i requires 0 <= i < |ids| => (ids[i], distance(query, embeddings[ids[i]])))
  }

  /** The sort key of `distances.sort(key=lambda x: x[1])`. */
  predicate Closer(a: (string, real), b: (string, real)) {
    a.1 < b.1
  }

  lemma CloserIsStrictWeakOrder()
    ensures StrictWeakOrder(Closer)
  {
  }

  /** Python's `xs[:n]`, where a negative `n` counts from the end. */
  function TakePy<T>(xs: seq<T>, n: int): (r: seq<T>)
    ensures n >= 0 ==> |r| == if n < |xs| then n else |xs|
    ensures r <= xs
  {
    if n >= 0 then Prefix(xs, n)
    else if |xs| + n >= 0 then xs[..|xs| + n]
    else []
  }

  /** The result lists of `query` (one query embedding, so one list each). */
  datatype QueryResult = QueryResult(ids: seq<string>, documents: seq<string>,
                                     metadatas: seq<Metadata>, distances: seq<real>)

  const NoResults := QueryResult([], [], [], [])

  /** The candidates the filter accepts, in store order, with their distances. */
  function CandidatesScored(order: seq<string>, embeddings: map<string, Embedding>, metadatas: map<string, Metadata>,
                            query: Embedding, keep: Metadata -> bool,
                            distance: (Embedding, Embedding) -> real): seq<(string, real)>
    requires Elems(order) <= embeddings.Keys
  {
    SelectedSpec(order, metadatas, keep);
    Scored(Selected(order, metadatas, keep), embeddings, query, distance)
  }

  /** The candidates `query` keeps, nearest first, cut to `n`. */
  function Ranked(order: seq<string>, embeddings: map<string, Embedding>, metadatas: map<string, Metadata>,
                  query: Embedding, n: int, keep: Metadata -> bool,
                  distance: (Embedding, Embedding) -> real): seq<(string, real)>
    requires Elems(order) <= embeddings.Keys
  {
    TakePy(SortBy(CandidatesScored(order, embeddings, metadatas, query, keep, distance), Closer), n)
  }

  /** The four result lists have one entry per id. */
  predicate WellShaped(r: QueryResult) {
    |r.documents| == |r.ids| && |r.metadatas| == |r.ids| && |r.distances| == |r.ids|
  }

  function ResultOf(top: seq<(string, real)>, documents: map<string, string>,
                    metadatas: map<string, Metadata>): (r: QueryResult)
    ensures WellShaped(r) && |r.ids| == |top|
  {
    var ids := seq(|top|, i requires 0 <= i < |top| => top[i].0);
    QueryResult(ids, DocumentsOf(ids, documents), MetadatasOf(ids, metadatas),
                seq(|top|, i requires 0 <= i < |top| => top[i].1))
  }

  /** What `query` returns. */
  function QueryOf(order: seq<string>, documents: map<string, string>, embeddings: map<string, Embedding>,
                   metadatas: map<string, Metadata>, query: Embedding, n: int, keep: Metadata -> bool,
                   distance: (Embedding, Embedding) -> real): (r: QueryResult)
    requires Elems(order) <= embeddings.Keys
    ensures WellShaped(r)
  {
    if embeddings == map[] || Selected(order, metadatas, keep) == [] then NoResults
    else ResultOf(Ranked(order, embeddings, metadatas, query, n, keep, distance), documents, metadatas)
  }

  /** Every ranked pair is a candidate the filter accepts, with its
      distance from the query. */
  lemma RankedMembers(order: seq<string>, embeddings: map<string, Embedding>, metadatas: map<string, Metadata>,
                      query: Embedding, n: int, keep: Metadata -> bool, distance: (Embedding, Embedding) -> real)
    requires Elems(order) <= embeddings.Keys
    ensures forall p :: p in Ranked(order, embeddings, metadatas, query, n, keep, distance) ==>
      p.0 in order && p.0 in metadatas && keep(metadatas[p.0]) && p.0 in embeddings
      && p.1 == distance(query, embeddings[p.0])
  {
    SelectedSpec(order, metadatas, keep);
    var cands := Selected(order, metadatas, keep);
    var scored := CandidatesScored(order, embeddings, metadatas, query, keep, distance);
    var sorted := SortBy(scored, Closer);
    forall p | p in Ranked(order, embeddings, metadatas, query, n, keep, distance)
      ensures p.0 in order && p.0 in metadatas && keep(metadatas[p.0]) && p.0 in embeddings
      ensures p.1 == distance(query, embeddings[p.0])
    {
      assert p in sorted;
      assert p in multiset(scored);
      var i :| 0 <= i < |scored| && scored[i] == p;
      assert cands[i] in cands;
    }
  }

  /** The ranked pairs come nearest first. */
  lemma RankedSorted(order: seq<string>, embeddings: map<string, Embedding>, metadatas: map<string, Metadata>,
                     query: Embedding, n: int, keep: Metadata -> bool, distance: (Embedding, Embedding) -> real)
    requires Elems(order) <= embeddings.Keys
    ensures var top := Ranked(order, embeddings, metadatas, query, n, keep, distance);
      forall i, j :: 0 <= i < j < |top| ==> top[i].1 <= top[j].1
  {
    var scored := CandidatesScored(order, embeddings, metadatas, query, keep, distance);
    var sorted := SortBy(scored, Closer);
    CloserIsStrictWeakOrder();
    SortBySorted(scored, Closer);
    var top := Ranked(order, embeddings, metadatas, query, n, keep, distance);
    assert top <= sorted;
    forall i, j | 0 <= i < j < |top| ensures top[i].1 <= top[j].1 {
      assert top[i] == sorted[i] && top[j] == sorted[j];
      assert !Closer(sorted[j], sorted[i]);
    }
  }

  /** Stability: for every distance, the ranked pairs at that distance are
      the first ones, in store order, of the candidates at that distance. */
  lemma RankedStable(order: seq<string>, embeddings: map<string, Embedding>, metadatas: map<string, Metadata>,
                     query: Embedding, n: int, keep: Metadata -> bool, distance: (Embedding, Embedding) -> real,
                     k: (string, real))
    requires Elems(order) <= embeddings.Keys
    ensures Ties(Ranked(order, embeddings, metadatas, query, n, keep, distance), k, Closer)
            <= Ties(CandidatesScored(order, embeddings, metadatas, query, keep, distance), k, Closer)
  {
    var scored := CandidatesScored(order, embeddings, metadatas, query, keep, distance);
    var sorted := SortBy(scored, Closer);
    var top := Ranked(order, embeddings, metadatas, query, n, keep, distance);
    CloserIsStrictWeakOrder();
    SortByStable(scored, k, Closer);
    TiesPrefix(top, sorted, k, Closer);
  }

  /** The ranked list holds `n` pairs, or all candidates when there are fewer. */
  lemma RankedLength(order: seq<string>, embeddings: map<string, Embedding>, metadatas: map<string, Metadata>,
                     query: Embedding, n: int, keep: Metadata -> bool, distance: (Embedding, Embedding) -> real)
    requires Elems(order) <= embeddings.Keys && n >= 0
    ensures var top := Ranked(order, embeddings, metadatas, query, n, keep, distance);
      var c := |Selected(order, metadatas, keep)|;
      |top| == if n < c then n else c
  {
    SelectedSpec(order, metadatas, keep);
  }
}
