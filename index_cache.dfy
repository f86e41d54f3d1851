/**
 * The metadata cache of one scope: which indexes exist and which collections
 * belong to each, known without asking the storage engine. A collection can
 * only be recorded under an index that is itself present, because collections
 * are stored as the value of their index's entry.
 */
module IndexCache {
  import opened Wrappers
  import opened StorageTypes

  type Cache = map<string, set<string>>

  predicate HasIndex(m: Cache, index: string) {
    index in m
  }

  predicate HasCollection(m: Cache, index: string, collection: string) {
    index in m && collection in m[index]
  }

  /** Idempotent insert of an index entry; existing collections are kept. */
  function AddIndex(m: Cache, index: string): (r: Cache)
    ensures forall i :: HasIndex(r, i) <==> HasIndex(m, i) || i == index
    ensures forall i, c :: HasCollection(r, i, c) <==> HasCollection(m, i, c)
  {
    if index in m then m else m[index := {}]
  }

  /** Idempotent insert of a collection; its index entry is created if needed. */
  function AddCollection(m: Cache, index: string, collection: string): (r: Cache)
    ensures forall i :: HasIndex(r, i) <==> HasIndex(m, i) || i == index
    ensures forall i, c :: HasCollection(r, i, c) <==> HasCollection(m, i, c) || (i == index && c == collection)
  {
    m[index := (if index in m then m[index] else {}) + {collection}]
  }

  /** Idempotent removal of an index together with all of its collections. */
  function RemoveIndex(m: Cache, index: string): (r: Cache)
    ensures forall i :: HasIndex(r, i) <==> HasIndex(m, i) && i != index
    ensures forall i, c :: HasCollection(r, i, c) <==> HasCollection(m, i, c) && i != index
  {
    m - {index}
  }

  /** Idempotent removal of one collection; its index entry stays. */
  function RemoveCollection(m: Cache, index: string, collection: string): (r: Cache)
    ensures forall i :: HasIndex(r, i) <==> HasIndex(m, i)
    ensures forall i, c :: HasCollection(r, i, c) <==> HasCollection(m, i, c) && !(i == index && c == collection)
  {
    if index in m then m[index := m[index] - {collection}] else m
  }

  /** Removal of every index of a batch, with all of their collections. */
  function RemoveIndexes(m: Cache, indexes: seq<string>): (r: Cache)
    ensures forall i :: HasIndex(r, i) <==> HasIndex(m, i) && i !in indexes
    ensures forall i, c :: HasCollection(r, i, c) <==> HasCollection(m, i, c) && i !in indexes
  {
    m - (set i | i in indexes)
  }

  /** Fails fast with a not-found error when the index is not cached. */
  function AssertIndexExists(m: Cache, index: string): (r: Outcome<StorageError>)
    ensures r.Pass? <==> HasIndex(m, index)
    ensures r.Fail? ==> r.error == UnknownIndex(index) && r.error.Kind() == NotFoundError
  {
    if index in m then Pass else Fail(UnknownIndex(index))
  }

  /** Fails fast with a not-found error when the pair is not cached. */
  function AssertCollectionExists(m: Cache, index: string, collection: string): (r: Outcome<StorageError>)
    ensures r.Pass? <==> HasCollection(m, index, collection)
    ensures r.Fail? ==> r.error == UnknownCollection(index, collection) && r.error.Kind() == NotFoundError
  {
    if index in m && collection in m[index] then Pass else Fail(UnknownCollection(index, collection))
  }

  /** Two caches with the same entries are the same cache. */
  lemma SameEntries(a: Cache, b: Cache)
    requires forall i :: HasIndex(a, i) <==> HasIndex(b, i)
    requires forall i, c :: HasCollection(a, i, c) <==> HasCollection(b, i, c)
    ensures a == b
  {
    assert forall i :: i in a.Keys <==> HasIndex(a, i);
    assert forall i :: i in b.Keys <==> HasIndex(b, i);
    assert a.Keys == b.Keys;
    forall i | i in a
      ensures a[i] == b[i]
    {
      assert forall c :: c in a[i] <==> HasCollection(a, i, c);
      assert forall c :: c in b[i] <==> HasCollection(b, i, c);
    }
  }

  lemma AddIndexIdempotent(m: Cache, index: string)
    ensures AddIndex(AddIndex(m, index), index) == AddIndex(m, index)
  {
  }

  lemma AddCollectionIdempotent(m: Cache, index: string, collection: string)
    ensures AddCollection(AddCollection(m, index, collection), index, collection) == AddCollection(m, index, collection)
  {
    var once := AddCollection(m, index, collection);
    SameEntries(AddCollection(once, index, collection), once);
  }

  /** Enumerates a set of names, each exactly once. */
  method Enumerate(names: set<string>) returns (r: seq<string>)
    ensures forall n :: n in r <==> n in names
    ensures forall j, k :: 0 <= j < k < |r| ==> r[j] != r[k]
  {
    var remaining := names;
    r := [];
    while remaining != {}
      invariant remaining <= names
      invariant forall n :: n in r <==> n in names - remaining
      invariant forall j, k :: 0 <= j < k < |r| ==> r[j] != r[k]
      decreases remaining
    {
      var n :| n in remaining;
      assert n !in r;
      assert forall j :: 0 <= j < |r| ==> r[j] != n;
      r := r + [n];
      remaining := remaining - {n};
    }
  }

  // ---------------------------------------------------------------------------
  // Population from the engine's schema

  /** One entry of the engine's schema: an index and the collections it holds. */
  datatype IndexSchema = IndexSchema(index: string, collections: seq<string>)

  /** The cache after adding every collection of `cols` under `index`, in order. */
  function AddCollections(m: Cache, index: string, cols: seq<string>): Cache
    decreases |cols|
  {
    if cols == [] then m else AddCollections(AddCollection(m, index, cols[0]), index, cols[1..])
  }

  /** The cache after loading every schema entry, in order: its index, then its collections. */
  function Populated(m: Cache, schema: seq<IndexSchema>): Cache
    decreases |schema|
  {
    if schema == [] then m
    else Populated(AddCollections(AddIndex(m, schema[0].index), schema[0].index, schema[0].collections), schema[1..])
  }

  predicate ListsIndex(schema: seq<IndexSchema>, index: string) {
    exists k :: 0 <= k < |schema| && schema[k].index == index
  }

  predicate ListsCollection(schema: seq<IndexSchema>, index: string, collection: string) {
    exists k :: 0 <= k < |schema| && schema[k].index == index && collection in schema[k].collections
  }

  lemma {:induction false} AddCollectionsExact(m: Cache, index: string, cols: seq<string>)
    ensures forall i :: HasIndex(AddCollections(m, index, cols), i) <==> HasIndex(m, i) || (i == index && cols != [])
    ensures forall i, c :: HasCollection(AddCollections(m, index, cols), i, c) <==> HasCollection(m, i, c) || (i == index && c in cols)
    decreases |cols|
  {
    if cols != [] {
      var m' := AddCollection(m, index, cols[0]);
      AddCollectionsExact(m', index, cols[1..]);
      assert forall c :: c in cols <==> c == cols[0] || c in cols[1..];
    }
  }

  /**
   * Populating adds exactly the entries of the schema: an index or a collection
   * is cached afterwards if and only if it was cached before or the schema lists it.
   */
  lemma {:induction false} PopulatedExact(m: Cache, schema: seq<IndexSchema>)
    ensures forall i :: HasIndex(Populated(m, schema), i) <==> HasIndex(m, i) || ListsIndex(schema, i)
    ensures forall i, c :: HasCollection(Populated(m, schema), i, c) <==> HasCollection(m, i, c) || ListsCollection(schema, i, c)
    decreases |schema|
  {
    if schema != [] {
      var head, tail := schema[0], schema[1..];
      var m' := AddCollections(AddIndex(m, head.index), head.index, head.collections);
      AddCollectionsExact(AddIndex(m, head.index), head.index, head.collections);
      PopulatedExact(m', tail);
      forall i
        ensures ListsIndex(schema, i) <==> head.index == i || ListsIndex(tail, i)
      {
        if ListsIndex(schema, i) {
          var k :| 0 <= k < |schema| && schema[k].index == i;
          if k > 0 { assert tail[k - 1].index == i; }
        }
        if ListsIndex(tail, i) {
          var k :| 0 <= k < |tail| && tail[k].index == i;
          assert schema[k + 1].index == i;
        }
        if head.index == i { assert schema[0].index == i; }
      }
      forall i, c
        ensures ListsCollection(schema, i, c) <==> (head.index == i && c in head.collections) || ListsCollection(tail, i, c)
      {
        if ListsCollection(schema, i, c) {
          var k :| 0 <= k < |schema| && schema[k].index == i && c in schema[k].collections;
          if k > 0 { assert tail[k - 1] == schema[k]; }
        }
        if ListsCollection(tail, i, c) {
          var k :| 0 <= k < |tail| && tail[k].index == i && c in tail[k].collections;
          assert schema[k + 1] == tail[k];
        }
        if head.index == i && c in head.collections { assert schema[0] == head; }
      }
    }
  }

  /** Populating twice from the same schema is the same as populating once. */
  lemma PopulateIdempotent(m: Cache, schema: seq<IndexSchema>)
    ensures Populated(Populated(m, schema), schema) == Populated(m, schema)
  {
    var once := Populated(m, schema);
    PopulatedExact(m, schema);
    PopulatedExact(once, schema);
    SameEntries(Populated(once, schema), once);
  }
}
