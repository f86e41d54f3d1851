/**
 * The storage client adapter of one scope: the single gateway between named
 * storage commands and the storage engine. Every operation checks the scope's
 * metadata cache first, then calls the engine (unless cache-only), then updates
 * the cache, then (unless told not to propagate) emits a `*:create:after`
 * notification. The engine, the event emitter and the mutex are observed
 * through one append-only trace of effects; engine replies are parameters.
 */
module StorageAdapter {
  import opened Wrappers
  import opened Json
  import opened StorageTypes
  import opened IndexCache
  import opened AdapterSpec

  /** Every (index, collection) pair the targets name is cached. */
  ghost predicate TargetsCached(m: Cache, targets: seq<SearchTarget>) {
    forall t, c :: 0 <= t < |targets| && 0 <= c < |targets[t].collections| ==>
      HasCollection(m, targets[t].index, targets[t].collections[c])
  }

  /** Pair `c` of target `t` is the first uncached pair, in target order then collection order. */
  ghost predicate FirstMissingPair(m: Cache, targets: seq<SearchTarget>, t: int, c: int) {
    && 0 <= t < |targets| && 0 <= c < |targets[t].collections|
    && !HasCollection(m, targets[t].index, targets[t].collections[c])
    && (forall t', c' :: 0 <= t' < t && 0 <= c' < |targets[t'].collections| ==>
          HasCollection(m, targets[t'].index, targets[t'].collections[c']))
    && (forall c' :: 0 <= c' < c ==> HasCollection(m, targets[t].index, targets[t].collections[c']))
  }

  class ClientAdapter {
    const scope: Scope
    var cache: Cache
    var effects: seq<Effect>

    function State(): AdapterState
      reads this
    {
      AdapterState(cache, effects)
    }

    /** A fresh adapter has an empty cache until it is populated. */
    constructor (scope: Scope)
      ensures this.scope == scope && cache == map[] && effects == []
    {
      this.scope := scope;
      cache := map[];
      effects := [];
    }

    // -------------------------------------------------------------------------
    // Setup

    /**
     * populateCache: generate missing aliases, read the engine's schema, and
     * load every index and collection it lists into the cache.
     */
    method PopulateCache(aliasesReply: Outcome<StorageError>, schemaReply: Result<seq<IndexSchema>, StorageError>)
      returns (r: Outcome<StorageError>)
      modifies this
      ensures aliasesReply.Fail? ==>
        r == aliasesReply && cache == old(cache) && effects == old(effects) + [EngineCalled(GenerateMissingAliases)]
      ensures aliasesReply.Pass? ==>
        effects == old(effects) + [EngineCalled(GenerateMissingAliases), EngineCalled(GetSchema)]
      ensures aliasesReply.Pass? && schemaReply.Failure? ==> r == Fail(schemaReply.error) && cache == old(cache)
      ensures aliasesReply.Pass? && schemaReply.Success? ==> r == Pass && cache == Populated(old(cache), schemaReply.value)
    {
      effects := effects + [EngineCalled(GenerateMissingAliases)];
      if aliasesReply.Fail? {
        return aliasesReply;
      }
      effects := effects + [EngineCalled(GetSchema)];
      if schemaReply.Failure? {
        return Fail(schemaReply.error);
      }
      var schema := schemaReply.value;
      var k := 0;
      while k < |schema|
        invariant 0 <= k <= |schema|
        invariant Populated(old(cache), schema) == Populated(cache, schema[k..])
        invariant effects == old(effects) + [EngineCalled(GenerateMissingAliases), EngineCalled(GetSchema)]
      {
        var entry := schema[k];
        assert schema[k..][0] == entry && schema[k..][1..] == schema[k + 1..];
        cache := AddIndex(cache, entry.index);
        var j := 0;
        while j < |entry.collections|
          invariant 0 <= j <= |entry.collections|
          invariant Populated(old(cache), schema) == Populated(AddCollections(cache, entry.index, entry.collections[j..]), schema[k + 1..])
          invariant effects == old(effects) + [EngineCalled(GenerateMissingAliases), EngineCalled(GetSchema)]
        {
          assert entry.collections[j..][0] == entry.collections[j];
          assert entry.collections[j..][1..] == entry.collections[j + 1..];
          cache := AddCollection(cache, entry.index, entry.collections[j]);
          j := j + 1;
        }
        k := k + 1;
      }
      r := Pass;
    }

    // -------------------------------------------------------------------------
    // Indexes

    method CreateIndex(index: string, opts: CreateOptions, reply: Outcome<StorageError>) returns (r: Outcome<StorageError>)
      modifies this
      ensures Transition(State(), r) == CreateIndexStep(old(State()), scope, index, opts, reply)
    {
      if index in cache {
        return Fail(IndexAlreadyExists(scope, index));
      }
      if !opts.indexCacheOnly {
        effects := effects + [EngineCalled(EngineCall.CreateIndex(index))];
        if reply.Fail? {
          return reply;
        }
      }
      cache := AddIndex(cache, index);
      if opts.propagate {
        effects := effects + [Emitted(IndexCreated(index, scope))];
      }
      r := Pass;
    }

    /** deleteIndex: assert the index exists, delete it in the engine, then forget it. */
    method DeleteIndex(index: string, reply: Outcome<StorageError>) returns (r: Outcome<StorageError>)
      modifies this
      ensures !HasIndex(old(cache), index) ==>
        r == Fail(UnknownIndex(index)) && cache == old(cache) && effects == old(effects)
      ensures HasIndex(old(cache), index) ==>
        && r == reply
        && effects == old(effects) + [EngineCalled(EngineCall.DeleteIndex(index))]
        && cache == (if reply.Pass? then RemoveIndex(old(cache), index) else old(cache))
    {
      r := AssertIndexExists(cache, index);
      if r.Fail? {
        return;
      }
      effects := effects + [EngineCalled(EngineCall.DeleteIndex(index))];
      if reply.Fail? {
        return reply;
      }
      cache := RemoveIndex(cache, index);
    }

    /** Asserts, in order, that every index of the batch is cached; fails on the first that is not. */
    method AssertIndexesExist(indexes: seq<string>) returns (r: Outcome<StorageError>)
      ensures r.Pass? <==> forall k :: 0 <= k < |indexes| ==> HasIndex(cache, indexes[k])
      ensures r.Fail? ==>
        exists k :: 0 <= k < |indexes| && r.error == UnknownIndex(indexes[k]) && !HasIndex(cache, indexes[k]) && (forall j :: 0 <= j < k ==> HasIndex(cache, indexes[j]))
    {
      for k := 0 to |indexes|
        invariant forall j :: 0 <= j < k ==> HasIndex(cache, indexes[j])
      {
        r := AssertIndexExists(cache, indexes[k]);
        if r.Fail? {
          return;
        }
      }
      r := Pass;
    }

    /**
     * deleteIndexes: all or nothing. If any index of the batch is missing, the
     * engine is not called and the cache is untouched; otherwise one engine call
     * deletes the batch, every index is forgotten, and the engine's result returned.
     */
    method DeleteIndexes(indexes: seq<string>, reply: Result<seq<string>, StorageError>) returns (r: Result<seq<string>, StorageError>)
      modifies this
      ensures (exists k :: 0 <= k < |indexes| && !HasIndex(old(cache), indexes[k])) ==>
        && r.Failure? && r.error.UnknownIndex? && r.error.index in indexes && !HasIndex(old(cache), r.error.index)
        && cache == old(cache) && effects == old(effects)
      ensures (forall k :: 0 <= k < |indexes| ==> HasIndex(old(cache), indexes[k])) ==>
        && r == reply
        && effects == old(effects) + [EngineCalled(EngineCall.DeleteIndexes(indexes))]
        && cache == (if reply.Success? then RemoveIndexes(old(cache), indexes) else old(cache))
    {
      var checked := AssertIndexesExist(indexes);
      if checked.Fail? {
        return Failure(checked.error);
      }
      effects := effects + [EngineCalled(EngineCall.DeleteIndexes(indexes))];
      if reply.Failure? {
        return reply;
      }
      CacheRemoveIndexes(indexes);
      r := reply;
    }

    /** index:exist is answered by the cache alone. */
    method IndexExists(index: string) returns (b: bool)
      ensures b <==> index in cache.Keys
    {
      b := HasIndex(cache, index);
    }

    /** index:list enumerates the cached indexes, each once. */
    method ListIndexes() returns (r: seq<string>)
      ensures forall i :: i in r <==> HasIndex(cache, i)
      ensures forall j, k :: 0 <= j < k < |r| ==> r[j] != r[k]
    {
      r := Enumerate(cache.Keys);
    }

    /** index:stats always asks the engine; the cache cannot answer it. */
    method GetStats(reply: Result<Json, StorageError>) returns (r: Result<Json, StorageError>)
      modifies this
      ensures r == reply && cache == old(cache) && effects == old(effects) + [EngineCalled(Stats)]
    {
      effects := effects + [EngineCalled(Stats)];
      r := reply;
    }

    /** info:get always asks the engine. */
    method GetInfo(reply: Result<Json, StorageError>) returns (r: Result<Json, StorageError>)
      modifies this
      ensures r == reply && cache == old(cache) && effects == old(effects) + [EngineCalled(Info)]
    {
      effects := effects + [EngineCalled(Info)];
      r := reply;
    }

    // -------------------------------------------------------------------------
    // Collections

    method CreateCollection(index: string, collection: string, settings: Json, opts: CreateOptions, reply: Outcome<StorageError>)
      returns (r: Outcome<StorageError>)
      modifies this
      ensures Transition(State(), r) == CreateCollectionStep(old(State()), scope, index, collection, settings, opts, reply)
    {
      if !opts.indexCacheOnly {
        effects := effects + [EngineCalled(EngineCall.CreateCollection(index, collection, settings))];
        if reply.Fail? {
          return reply;
        }
      }
      cache := AddCollection(cache, index, collection);
      if opts.propagate {
        effects := effects + [Emitted(CollectionCreated(index, collection, scope))];
      }
      r := Pass;
    }

    /** deleteCollection: assert the pair exists, delete it in the engine, then forget it. */
    method DeleteCollection(index: string, collection: string, reply: Outcome<StorageError>) returns (r: Outcome<StorageError>)
      modifies this
      ensures !HasCollection(old(cache), index, collection) ==>
        r == Fail(UnknownCollection(index, collection)) && cache == old(cache) && effects == old(effects)
      ensures HasCollection(old(cache), index, collection) ==>
        && r == reply
        && effects == old(effects) + [EngineCalled(EngineCall.DeleteCollection(index, collection))]
        && cache == (if reply.Pass? then RemoveCollection(old(cache), index, collection) else old(cache))
    {
      r := AssertCollectionExists(cache, index, collection);
      if r.Fail? {
        return;
      }
      effects := effects + [EngineCalled(EngineCall.DeleteCollection(index, collection))];
      if reply.Fail? {
        return reply;
      }
      cache := RemoveCollection(cache, index, collection);
    }

    /** collection:exist is answered by the cache alone. */
    method CollectionExists(index: string, collection: string) returns (b: bool)
      ensures b <==> index in cache.Keys && collection in cache[index]
    {
      b := HasCollection(cache, index, collection);
    }

    /** collection:list enumerates the cached collections of an index, each once; none for an unknown index. */
    method ListCollections(index: string) returns (r: seq<string>)
      ensures forall c :: c in r <==> HasCollection(cache, index, c)
      ensures forall j, k :: 0 <= j < k < |r| ==> r[j] != r[k]
    {
      r := Enumerate(if index in cache then cache[index] else {});
    }

    /**
     * The shared discipline of every command that targets an existing
     * collection (refresh, truncate, update, mappings get/update, and the
     * document commands): assert the pair is cached, then delegate verbatim to
     * the engine and return its result unchanged. The cache never changes.
     */
    method CollectionCommand(verb: CollectionVerb, index: string, collection: string, args: seq<Json>, reply: Result<Json, StorageError>)
      returns (r: Result<Json, StorageError>)
      modifies this
      ensures cache == old(cache)
      ensures !HasCollection(cache, index, collection) ==>
        r == Failure(UnknownCollection(index, collection)) && effects == old(effects)
      ensures HasCollection(cache, index, collection) ==>
        r == reply && effects == old(effects) + [EngineCalled(OnCollection(verb, index, collection, args))]
    {
      var checked := AssertCollectionExists(cache, index, collection);
      if checked.Fail? {
        return Failure(checked.error);
      }
      effects := effects + [EngineCalled(OnCollection(verb, index, collection, args))];
      r := reply;
    }

    // -------------------------------------------------------------------------
    // Searches

    /** document:search: assert the pair, then one engine search keyed by {index, collection, searchBody}. */
    method Search(index: string, collection: string, searchBody: Json, options: Json, reply: Result<Json, StorageError>)
      returns (r: Result<Json, StorageError>)
      modifies this
      ensures cache == old(cache)
      ensures !HasCollection(cache, index, collection) ==>
        r == Failure(UnknownCollection(index, collection)) && effects == old(effects)
      ensures HasCollection(cache, index, collection) ==>
        r == reply && effects == old(effects) + [EngineCalled(EngineCall.Search(SingleTarget(index, collection, searchBody), options))]
    {
      var checked := AssertCollectionExists(cache, index, collection);
      if checked.Fail? {
        return Failure(checked.error);
      }
      effects := effects + [EngineCalled(EngineCall.Search(SingleTarget(index, collection, searchBody), options))];
      r := reply;
    }

    /** Asserts every (index, collection) pair the targets name; fails naming the first missing pair. */
    method AssertTargetsExist(targets: seq<SearchTarget>) returns (r: Outcome<StorageError>)
      ensures r.Pass? <==> TargetsCached(cache, targets)
      ensures r.Fail? ==> exists t, c :: (FirstMissingPair(cache, targets, t, c)
                                          && r.error == UnknownCollection(targets[t].index, targets[t].collections[c]))
    {
      for t := 0 to |targets|
        invariant forall t', c :: 0 <= t' < t && 0 <= c < |targets[t'].collections| ==>
          HasCollection(cache, targets[t'].index, targets[t'].collections[c])
      {
        var target := targets[t];
        for c := 0 to |target.collections|
          invariant forall t', c' :: 0 <= t' < t && 0 <= c' < |targets[t'].collections| ==>
            HasCollection(cache, targets[t'].index, targets[t'].collections[c'])
          invariant forall c' :: 0 <= c' < c ==> HasCollection(cache, target.index, target.collections[c'])
        {
          r := AssertCollectionExists(cache, target.index, target.collections[c]);
          if r.Fail? {
            assert FirstMissingPair(cache, targets, t, c);
            return;
          }
        }
      }
      r := Pass;
    }

    /** document:multiSearch: assert every target pair, then one engine search keyed by {targets, searchBody}. */
    method MultiSearch(targets: seq<SearchTarget>, searchBody: Json, options: Json, reply: Result<Json, StorageError>)
      returns (r: Result<Json, StorageError>)
      modifies this
      ensures cache == old(cache)
      ensures TargetsCached(cache, targets) ==>
        r == reply && effects == old(effects) + [EngineCalled(EngineCall.Search(MultiTarget(targets, searchBody), options))]
      // The first missing pair is reported and the engine is not asked.
      ensures !TargetsCached(cache, targets) ==> effects == old(effects)
      ensures !TargetsCached(cache, targets) ==> exists t, c :: (FirstMissingPair(cache, targets, t, c)
                                                                && r == Failure(UnknownCollection(targets[t].index, targets[t].collections[c])))
    {
      var checked := AssertTargetsExist(targets);
      if checked.Fail? {
        return Failure(checked.error);
      }
      effects := effects + [EngineCalled(EngineCall.Search(MultiTarget(targets, searchBody), options))];
      r := reply;
    }

    /** document:scroll needs no assertion: the cursor stems from a search that was checked. */
    method Scroll(scrollId: string, options: Json, reply: Result<Json, StorageError>) returns (r: Result<Json, StorageError>)
      modifies this
      ensures r == reply && cache == old(cache) && effects == old(effects) + [EngineCalled(EngineCall.Scroll(scrollId, options))]
    {
      effects := effects + [EngineCalled(EngineCall.Scroll(scrollId, options))];
      r := reply;
    }

    // -------------------------------------------------------------------------
    // Imports

    /** The collections of one index of a mapping document, created in order until one fails. */
    method ImportCollections(index: string, collections: seq<(string, Json)>, opts: ImportOptions,
                             collectionReply: (string, string) -> Outcome<StorageError>) returns (r: Outcome<StorageError>)
      modifies this
      ensures Transition(State(), r) == ImportCollectionsFrom(old(State()), scope, index, collections, opts, collectionReply)
    {
      var j := 0;
      while j < |collections|
        invariant 0 <= j <= |collections|
        invariant ImportCollectionsFrom(old(State()), scope, index, collections, opts, collectionReply)
               == ImportCollectionsFrom(State(), scope, index, collections[j..], opts, collectionReply)
      {
        assert collections[j..][0] == collections[j] && collections[j..][1..] == collections[j + 1..];
        var name := collections[j].0;
        var created := CreateCollection(index, name, CollectionSettings(collections[j].1, opts.rawMappings),
                                        ImportCollectionOptions(opts), collectionReply(index, name));
        if created.Fail? {
          return created;
        }
        j := j + 1;
      }
      r := Pass;
    }

    /**
     * importMappings: refuse a malformed document before anything else; take
     * the `loadMappings` lock; create each index, ignoring only the "already
     * exists" rejection, then its collections; release the lock on every path.
     */
    method ImportMappings(doc: Json, opts: ImportOptions,
                          indexReply: string -> Outcome<StorageError>,
                          collectionReply: (string, string) -> Outcome<StorageError>) returns (r: Outcome<StorageError>)
      modifies this
      ensures Transition(State(), r) == AdapterSpec.ImportMappings(old(State()), scope, doc, opts, indexReply, collectionReply)
    {
      if !IsTwoLevelObject(doc) {
        return Fail(InvalidArgument);
      }
      effects := effects + [Locked(LoadMappingsLock)];
      ghost var locked := State();
      var indexes := doc.members;
      r := Pass;
      var k := 0;
      while k < |indexes|
        invariant 0 <= k <= |indexes|
        invariant r == Pass
        invariant ImportIndexesFrom(locked, scope, indexes, opts, indexReply, collectionReply)
               == ImportIndexesFrom(State(), scope, indexes[k..], opts, indexReply, collectionReply)
      {
        assert indexes[k..][0] == indexes[k] && indexes[k..][1..] == indexes[k + 1..];
        var index := indexes[k].0;
        var created := CreateIndex(index, ImportIndexOptions(opts), indexReply(index));
        if created.Fail? && !IsAlreadyExists(created.error) {
          r := created;
          break;
        }
        var imported := ImportCollections(index, indexes[k].1.members, opts, collectionReply);
        if imported.Fail? {
          r := imported;
          break;
        }
        k := k + 1;
      }
      effects := effects + [Unlocked(LoadMappingsLock)];
    }

    /** The fixtures of one index, imported collection by collection until one fails. */
    method ImportCollectionFixtures(index: string, collections: seq<(string, Json)>, reply: (string, string) -> ImportReply)
      returns (r: Outcome<StorageError>)
      modifies this
      ensures Transition(State(), r) == ImportFixturesInto(old(State()), index, collections, reply)
    {
      var j := 0;
      while j < |collections|
        invariant 0 <= j <= |collections|
        invariant ImportFixturesInto(old(State()), index, collections, reply)
               == ImportFixturesInto(State(), index, collections[j..], reply)
      {
        assert collections[j..][0] == collections[j] && collections[j..][1..] == collections[j + 1..];
        var name := collections[j].0;
        effects := effects + [EngineCalled(OnCollection(Import, index, name, [collections[j].1]))];
        match reply(index, name)
        case ImportRejected(e) =>
          return Fail(e);
        case Imported(errors) =>
          if errors != [] {
            return Fail(ImportFailed(errors));
          }
        j := j + 1;
      }
      r := Pass;
    }

    /**
     * importDocuments: refuse malformed fixtures, then import every
     * (index, collection) through the engine; a reply listing per-document
     * errors turns into an aggregate import failure.
     */
    method ImportDocuments(fixtures: Json, reply: (string, string) -> ImportReply) returns (r: Outcome<StorageError>)
      modifies this
      ensures Transition(State(), r) == AdapterSpec.ImportDocuments(old(State()), fixtures, reply)
    {
      if !IsTwoLevelObject(fixtures) {
        return Fail(InvalidArgument);
      }
      var indexes := fixtures.members;
      var k := 0;
      while k < |indexes|
        invariant 0 <= k <= |indexes|
        invariant ImportFixturesFrom(old(State()), indexes, reply) == ImportFixturesFrom(State(), indexes[k..], reply)
      {
        assert indexes[k..][0] == indexes[k] && indexes[k..][1..] == indexes[k + 1..];
        var imported := ImportCollectionFixtures(indexes[k].0, indexes[k].1.members, reply);
        if imported.Fail? {
          return imported;
        }
        k := k + 1;
      }
      r := Pass;
    }

    // -------------------------------------------------------------------------
    // Cache-only commands: they never touch the engine and emit nothing.

    method CacheAddIndex(index: string)
      modifies this
      ensures cache == AddIndex(old(cache), index) && effects == old(effects)
    {
      cache := AddIndex(cache, index);
    }

    method CacheAddCollection(index: string, collection: string)
      modifies this
      ensures cache == AddCollection(old(cache), index, collection) && effects == old(effects)
    {
      cache := AddCollection(cache, index, collection);
    }

    method CacheRemoveIndexes(indexes: seq<string>)
      modifies this
      ensures cache == RemoveIndexes(old(cache), indexes) && effects == old(effects)
    {
      for k := 0 to |indexes|
        invariant cache == RemoveIndexes(old(cache), indexes[..k])
        invariant effects == old(effects)
      {
        assert indexes[..k + 1] == indexes[..k] + [indexes[k]];
        cache := RemoveIndex(cache, indexes[k]);
        SameEntries(cache, RemoveIndexes(old(cache), indexes[..k + 1]));
      }
      assert indexes[..|indexes|] == indexes;
    }

    method CacheRemoveCollection(index: string, collection: string)
      modifies this
      ensures cache == RemoveCollection(old(cache), index, collection) && effects == old(effects)
    {
      cache := RemoveCollection(cache, index, collection);
    }
  }
}
