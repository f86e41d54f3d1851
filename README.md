# Storage client adapter and cluster ID-card renewer

This project models two components of a Kuzzle backend node and proves
properties of them.

**The storage client adapter.** There is one adapter per storage scope
(`public` or `private`). It is the only gateway between the named storage
commands (`core:storage:<scope>:<command>`) and the storage engine. It keeps a
metadata cache of which indexes exist and which collections belong to each. Every
command follows one discipline:

- it checks the cache;
- it calls the engine, unless the call is cache-only;
- it updates the cache;
- unless `propagate` is false, it emits a `core:storage:*:create:after` event.

A mapping import runs under a `loadMappings` mutex. Document and mapping
imports validate their two-level object argument before doing any work.

The engine, the event emitter and the mutex are observed through one
append-only trace of effects (`StorageTypes.Effect`). Engine replies are
parameters of the operations: a single reply, or a reply function of the index
or (index, collection) for the importing loops. The adapter itself is the
class `StorageAdapter.ClientAdapter`, with fields `cache` and `effects`. Each
method is proved equal to a function of the previous state, or states its new
state outright. Those functions live in `AdapterSpec` and `IndexCache`, and the
lemmas there state the import guarantees.

**The cluster ID-card renewer.** This worker keeps the node's ID card alive in
Redis. `init` records the node key, the refresh delay and the multiplier.
It starts an interval timer and tells the parent process it is initialised.
`renewIDCard` extends the key's time-to-live to `refreshDelay × refreshMultiplier`
milliseconds. A `pexpire` reply of 0 means the key had already expired: the
worker then disposes of itself and reports `Node too slow: ID card expired`.
`dispose` is idempotent: it stops the timer and deletes the key if a Redis
handle exists. The worker is the class `ClusterWorkers.IDCardRenewer`. Its Redis
commands, timer calls and parent messages are logs (`redisCommands`,
`timerCalls`, `outbox`). Whether connecting yields a Redis handle, and what `pexpire`
answers, are parameters. The lifecycle methods at the end of that module
build a fresh worker and state the end results of the call sequences the
worker's behaviour is defined by.

Files:

- `wrappers.dfy`: `Option`, `Result` and `Outcome` (success or an error).
- `json.dfy`: JSON values and the two-level object check.
- `storage_types.dfy`: scopes, errors with their ids and kinds, options, engine calls, events and effects.
- `index_cache.dfy`: the cache and its operations.
- `adapter_spec.dfy`: the adapter's operations as state transitions, with the import lemmas.
- `client_adapter.dfy`: the adapter class.
- `id_card_renewer.dfy`: the renewer class and its lifecycles.

The behaviour of both components is defined by the test files
`test/core/storage/clientAdapter.test.js` and
`test/cluster/workers/IDCardRenewer.test.js`. Their implementations,
`lib/core/storage/clientAdapter` and `lib/cluster/workers/IDCardRenewer`, are
not part of this model. Where a test leaves a choice open, the model takes
the reading that the tests and the component's documented design agree on.
Those choices are:

- Index creation inside a mapping import forwards only `indexCacheOnly`; it always propagates.
- Collection creation inside it forwards both `propagate` and `indexCacheOnly`.
- An "already exists" rejection is recognised by its error id. An index the engine rejects that way is not cached by the import itself; it ends up cached only through the creation of one of its collections.
- `deleteIndexes` forgets every requested index once the engine succeeds.
- `listCollections` on an index that is not cached answers with no collections rather than an error.
- A document import stops at the first engine rejection, or at the first reply that lists errors.

## Model

| member | source | states |
|---|---|---|
| IndexCache.AddIndex | test/core/storage/clientAdapter.test.js:1846-1856 | afterwards the index is cached; every other index and every collection membership is kept |
| IndexCache.AddCollection | test/core/storage/clientAdapter.test.js:1858-1869 | afterwards the pair and its index are cached; nothing else is added or lost |
| IndexCache.RemoveIndex | test/core/storage/clientAdapter.test.js:184-193 | afterwards the index and all of its collections are gone; every other entry is kept |
| IndexCache.RemoveCollection | test/core/storage/clientAdapter.test.js:1885-1901 | afterwards exactly that pair is gone; every index stays cached |
| IndexCache.RemoveIndexes | test/core/storage/clientAdapter.test.js:1872-1883 | exactly the listed indexes, and their collections, are gone |
| IndexCache.AssertIndexExists | test/core/storage/clientAdapter.test.js:195-203 | passes if and only if the index is cached; otherwise fails with the not-found unknown-index error |
| IndexCache.AssertCollectionExists | test/core/storage/clientAdapter.test.js:369-381 | passes if and only if the pair is cached; otherwise fails with the not-found unknown-collection error |
| IndexCache.AddIndexIdempotent | test/core/storage/clientAdapter.test.js:1846-1856 | adding an index twice leaves the same cache as adding it once |
| IndexCache.AddCollectionIdempotent | test/core/storage/clientAdapter.test.js:1858-1869 | adding a pair twice leaves the same cache as adding it once |
| IndexCache.Enumerate | test/core/storage/clientAdapter.test.js:219-230 | the listing holds exactly the given names, each once |
| IndexCache.AddCollectionsExact | test/core/storage/clientAdapter.test.js:85-112 | loading one schema entry's collections adds exactly those pairs, and their index when the list is non-empty |
| IndexCache.PopulatedExact | test/core/storage/clientAdapter.test.js:85-112 | after loading a schema, an index or pair is cached if and only if it was cached before or the schema lists it |
| IndexCache.PopulateIdempotent | test/core/storage/clientAdapter.test.js:85-112 | loading the same schema a second time changes nothing |
| AdapterSpec.CreateIndexStep | test/core/storage/clientAdapter.test.js:125-182 | a cached index is rejected with the index_already_exists precondition error before the engine is asked; otherwise the engine is asked unless cache-only, creation succeeds exactly when cache-only or the engine accepts, the cache gains the index exactly on success, and the after-event with index and scope is emitted exactly on a propagated success |
| AdapterSpec.CreateCollectionStep | test/core/storage/clientAdapter.test.js:280-350 | no cache check; the engine gets index, collection and settings unless cache-only; success exactly when cache-only or the engine accepts; the pair is cached exactly on success; the after-event with index, collection and scope is emitted exactly on a propagated success |
| AdapterSpec.RawMappingsAreWrapped | test/core/storage/clientAdapter.test.js:587-611 | importing a document with rawMappings has the same result and effects as importing, without it, the document whose every collection mapping is wrapped as `{mappings: …}` |
| AdapterSpec.ImportMappings | test/core/storage/clientAdapter.test.js:613-636 | a document that is not an object of objects is refused with the invalid_argument bad-request error, before any lock or engine call, and nothing changes |
| AdapterSpec.CreateIndexWithDefaults | test/core/storage/clientAdapter.test.js:125-137 | with the default options, an unknown index is created by the engine, cached, and announced as `core:storage:index:create:after` with the index and the scope |
| AdapterSpec.CreateCollectionWithDefaults | test/core/storage/clientAdapter.test.js:280-304 | with the default options, the engine creates the collection with its settings, the pair is cached, and `core:storage:collection:create:after` is emitted with index, collection and scope |
| AdapterSpec.CreateIndexAdvances | test/core/storage/clientAdapter.test.js:125-182 | creating an index only extends the trace, with no lock operation, and loses no cache entry |
| AdapterSpec.CreateCollectionAdvances | test/core/storage/clientAdapter.test.js:280-350 | creating a collection only extends the trace, with no lock operation, and loses no cache entry |
| AdapterSpec.ImportMappingsLocksOnce | test/core/storage/clientAdapter.test.js:559-585 | a well-formed import takes the `loadMappings` lock once, first, and releases it once, last, whatever the engine answers, and loses no cache entry |
| AdapterSpec.ImportMappingsSucceeds | test/core/storage/clientAdapter.test.js:559-662 | when every index creation succeeds or is rejected only as already existing, and every collection creation succeeds, the import succeeds and every listed collection is cached, as is every listed index except one the engine rejected as already existing that has no collections; unless cache-only, the engine was asked to create every listed index not cached before and every listed collection with its mapping |
| AdapterSpec.ImportMappingsOutcome | test/core/storage/clientAdapter.test.js:638-662 | a well-formed import succeeds if and only if it is cache-only, or every listed index is cached already or its creation succeeds or is rejected only as already existing, and every collection creation succeeds |
| AdapterSpec.ImportToleratesExistingIndex | test/core/storage/clientAdapter.test.js:648-662 | with the default options, two indexes whose first creation the engine rejects as already existing still import successfully, and the engine was asked to create both indexes and both collections |
| AdapterSpec.ImportMappingsFailsOnlyOnEngineRejection | test/core/storage/clientAdapter.test.js:638-662 | a well-formed import fails only with an error the engine gave: an index creation rejected for a reason other than already existing, or a collection creation rejected |
| AdapterSpec.ImportDocuments | test/core/storage/clientAdapter.test.js:1118-1141 | fixtures that are not an object of objects are refused with the invalid_argument bad-request error and nothing changes; the cache never changes |
| AdapterSpec.ImportDocumentsOutcome | test/core/storage/clientAdapter.test.js:1101-1150 | well-formed fixtures import successfully if and only if every engine import reports no errors; a failure is the engine's rejection or the import_failed partial error wrapping the reported errors; on success the engine was asked to import every (index, collection) with its documents |
| StorageAdapter.ClientAdapter.constructor | test/core/storage/clientAdapter.test.js:39-55 | a new adapter of the given scope starts with an empty cache and no effects |
| StorageAdapter.ClientAdapter.PopulateCache | test/core/storage/clientAdapter.test.js:70-113 | generates missing aliases, then reads the schema, and loads every listed index and collection into the cache; an engine failure stops it and is returned |
| StorageAdapter.ClientAdapter.CreateIndex | test/core/storage/clientAdapter.test.js:125-182 | the new state and the outcome are exactly those of `AdapterSpec.CreateIndexStep` |
| StorageAdapter.ClientAdapter.DeleteIndex | test/core/storage/clientAdapter.test.js:184-203 | an uncached index is rejected with nothing called or changed; otherwise the engine deletes it and, on success, the cache forgets it |
| StorageAdapter.ClientAdapter.AssertIndexesExist | test/core/storage/clientAdapter.test.js:265-276 | passes if and only if every listed index is cached; otherwise fails naming the first missing one |
| StorageAdapter.ClientAdapter.DeleteIndexes | test/core/storage/clientAdapter.test.js:245-277 | if any listed index is uncached, rejects naming one with no engine call and no cache change; otherwise one engine call deletes the batch, the engine's result is returned and, on success, every listed index is forgotten |
| StorageAdapter.ClientAdapter.IndexExists | test/core/storage/clientAdapter.test.js:205-217 | answers from the cache: true exactly when the index is cached |
| StorageAdapter.ClientAdapter.ListIndexes | test/core/storage/clientAdapter.test.js:219-230 | lists exactly the cached indexes, each once |
| StorageAdapter.ClientAdapter.GetStats | test/core/storage/clientAdapter.test.js:232-243 | asks the engine for statistics and returns its answer; the cache is unchanged |
| StorageAdapter.ClientAdapter.GetInfo | test/core/storage/clientAdapter.test.js:115-122 | asks the engine for information and returns its answer; the cache is unchanged |
| StorageAdapter.ClientAdapter.CreateCollection | test/core/storage/clientAdapter.test.js:280-350 | the new state and the outcome are exactly those of `AdapterSpec.CreateCollectionStep` |
| StorageAdapter.ClientAdapter.DeleteCollection | test/core/storage/clientAdapter.test.js:352-381 | an uncached pair is rejected with nothing called or changed; otherwise the engine deletes it and, on success, the cache forgets exactly that pair |
| StorageAdapter.ClientAdapter.CollectionExists | test/core/storage/clientAdapter.test.js:383-395 | answers from the cache: true exactly when the pair is cached |
| StorageAdapter.ClientAdapter.ListCollections | test/core/storage/clientAdapter.test.js:397-406 | lists exactly the cached collections of the index, each once, and none for an uncached index |
| StorageAdapter.ClientAdapter.CollectionCommand | test/core/storage/clientAdapter.test.js:408-1843 | an uncached pair is rejected with the unknown-collection error and the engine is not called; otherwise exactly one engine call with the verb, pair and arguments, and the engine's answer is returned; the cache never changes |
| StorageAdapter.ClientAdapter.Search | test/core/storage/clientAdapter.test.js:1562-1606 | an uncached pair is rejected and the engine is not called; otherwise one engine search keyed by index, collection and search body, and its answer is returned |
| StorageAdapter.ClientAdapter.AssertTargetsExist | test/core/storage/clientAdapter.test.js:1637-1653 | passes if and only if every (index, collection) of every target is cached; otherwise fails with the unknown-collection error of the first uncached pair, in target order then collection order |
| StorageAdapter.ClientAdapter.MultiSearch | test/core/storage/clientAdapter.test.js:1608-1653 | if any target pair is uncached, rejects with the unknown-collection error of the first uncached pair and nothing called; otherwise one engine search keyed by the targets and the search body, and its answer is returned |
| StorageAdapter.ClientAdapter.Scroll | test/core/storage/clientAdapter.test.js:1548-1560 | forwards the scroll id and options to the engine with no cache check and returns its answer |
| StorageAdapter.ClientAdapter.ImportCollections | test/core/storage/clientAdapter.test.js:559-611 | creates the collections of one index in order and stops at the first failure, as `AdapterSpec.ImportCollectionsFrom` says |
| StorageAdapter.ClientAdapter.ImportMappings | test/core/storage/clientAdapter.test.js:541-663 | the new state and the outcome are exactly those of `AdapterSpec.ImportMappings` |
| StorageAdapter.ClientAdapter.ImportCollectionFixtures | test/core/storage/clientAdapter.test.js:1101-1150 | imports the fixtures of one index collection by collection, as `AdapterSpec.ImportFixturesInto` says |
| StorageAdapter.ClientAdapter.ImportDocuments | test/core/storage/clientAdapter.test.js:1090-1150 | the new state and the outcome are exactly those of `AdapterSpec.ImportDocuments` |
| StorageAdapter.ClientAdapter.CacheAddIndex | test/core/storage/clientAdapter.test.js:1846-1856 | the cache gains the index; no engine call and no event |
| StorageAdapter.ClientAdapter.CacheAddCollection | test/core/storage/clientAdapter.test.js:1858-1869 | the cache gains the pair; no engine call and no event |
| StorageAdapter.ClientAdapter.CacheRemoveIndexes | test/core/storage/clientAdapter.test.js:1872-1883 | the cache forgets every listed index; no engine call and no event |
| StorageAdapter.ClientAdapter.CacheRemoveCollection | test/core/storage/clientAdapter.test.js:1885-1901 | the cache forgets that pair; no engine call and no event |
| ClusterWorkers.IDCardRenewer.constructor | test/cluster/workers/IDCardRenewer.test.js:207-220 | a new renewer is disposed, has no timer, no configuration and no Redis handle |
| ClusterWorkers.IDCardRenewer.Init | test/cluster/workers/IDCardRenewer.test.js:37-91 | the renewer becomes live with the configured key, delay and multiplier, starts one interval timer with the refresh delay, and sends `{initialized: true}` to the parent |
| ClusterWorkers.IDCardRenewer.RenewIDCard | test/cluster/workers/IDCardRenewer.test.js:121-154 | a disposed renewer changes nothing; a live one sends exactly one pexpire of its key with refreshDelay × refreshMultiplier; a reply of 0 disposes of it and sends the too-slow error, and any other reply changes nothing else |
| ClusterWorkers.IDCardRenewer.Dispose | test/cluster/workers/IDCardRenewer.test.js:183-226 | a disposed renewer changes nothing; a live one becomes disposed, clears its timer and forgets it, and deletes its key only if a Redis handle is present |
| ClusterWorkers.DisposeUninitialised | test/cluster/workers/IDCardRenewer.test.js:207-226 | disposing of a never-initialised renewer leaves it disposed, clears no timer and sends no Redis command |
| ClusterWorkers.InitLifecycle | test/cluster/workers/IDCardRenewer.test.js:37-91 | after init the renewer is live, holds the configured key and delay, has a timer, and its only message is `{initialized: true}` |
| ClusterWorkers.RenewLifecycle | test/cluster/workers/IDCardRenewer.test.js:121-144 | one renewal sends exactly one pexpire with delay × multiplier (100 × 4 gives 400); the renewer ends disposed, with its key deleted and the too-slow error sent, exactly when the reply is 0 |
| ClusterWorkers.RenewAfterDispose | test/cluster/workers/IDCardRenewer.test.js:146-154 | a renewal after disposal sends no pexpire, clears no further timer and sends no message |
| ClusterWorkers.DisposeLifecycle | test/cluster/workers/IDCardRenewer.test.js:183-205 | disposing once or twice leaves the renewer disposed without a timer, with one timer cleared, and its key deleted once exactly when a Redis handle exists |

## Left out

- Command registration: binding each storage command name to its adapter method through the node's ask/answer bus is not modelled. The methods are called directly.
- The write controller and the API layer above the adapter are not part of this model.
- The storage engine's internals (Elasticsearch requests, alias generation, schema reading) are not modelled: each engine reply is a parameter.
- The mutex's locking algorithm and any contention between nodes are not modelled: the lock and unlock are effects in the trace.
- Propagation of cache changes to other cluster nodes is not modelled: the after-events are recorded as emitted and nothing more.
- Asynchronous interleaving of concurrent commands is not modelled: each operation runs to completion.
- JSON numbers are integers here; floating-point values are not modelled.
- ClusterWorkers.IDCardRenewer.Init: connecting to Redis is reduced to whether a handle results (`redisConnected`); the connection options and the Redis name are not modelled.
- ClusterWorkers.IDCardRenewer.Init: the timer's firing is not modelled. Real `setInterval`/`clearInterval` timing, and the check that a 1 ms period calls renewIDCard twice, depend on the wall clock. An immediate first renewal inside init is also not modelled: the test history resets suggest one, but its order against the timer and the ready message is not visible.
- ClusterWorkers.IDCardRenewer.Init: the refresh multiplier is required in the configuration. The default applied when it is omitted is not visible in the tests that omit it.
- ClusterWorkers.IDCardRenewer.RenewIDCard: requires a Redis handle on a live renewer. Renewing without one, and a `pexpire` call that rejects instead of answering, are not modelled.
- Parent-process messaging is an outbox of messages; the transport (`process.send` or a message port) is not modelled.
