/**
 * Scopes, errors, options, engine calls and the observable effects of the
 * storage client adapter.
 */
module StorageTypes {
  import opened Json

  /** The two fixed partitions of storage state. */
  datatype Scope = Public | Private

  const IndexAlreadyExistsId := "services.storage.index_already_exists"
  const UnknownIndexId := "services.storage.unknown_index"
  const UnknownCollectionId := "services.storage.unknown_collection"
  const ImportFailedId := "services.storage.import_failed"
  const InvalidArgumentId := "api.assert.invalid_argument"

  /** The error classes callers can tell apart. */
  datatype ErrorKind = BadRequestError | PreconditionError | NotFoundError | PartialError | EngineErrorKind

  datatype StorageError =
    /** createIndex on an index the cache already holds. */
    | IndexAlreadyExists(scope: Scope, index: string)
    /** assertIndexExists failed. */
    | UnknownIndex(index: string)
    /** assertCollectionExists failed. */
    | UnknownCollection(index: string, collection: string)
    /** A mapping document or fixtures value that is not a two-level plain object. */
    | InvalidArgument
    /** A bulk document import whose engine result listed per-document failures. */
    | ImportFailed(failures: seq<Json>)
    /** Any rejection of the engine, passed through with its own identifier. */
    | EngineError(id: string, message: string)
  {
    function Id(): string {
      match this
      case IndexAlreadyExists(_, _) => IndexAlreadyExistsId
      case UnknownIndex(_) => UnknownIndexId
      case UnknownCollection(_, _) => UnknownCollectionId
      case InvalidArgument => InvalidArgumentId
      case ImportFailed(_) => ImportFailedId
      case EngineError(id, _) => id
    }

    function Kind(): ErrorKind {
      match this
      case IndexAlreadyExists(_, _) => PreconditionError
      case UnknownIndex(_) => NotFoundError
      case UnknownCollection(_, _) => NotFoundError
      case InvalidArgument => BadRequestError
      case ImportFailed(_) => PartialError
      case EngineError(_, _) => EngineErrorKind
    }
  }

  /** Options of index and collection creation; defaults `propagate: true`, `indexCacheOnly: false`. */
  datatype CreateOptions = CreateOptions(propagate: bool, indexCacheOnly: bool)

  const DefaultCreateOptions := CreateOptions(true, false)

  /** Options of the mapping import; defaults are all but `propagate` false. */
  datatype ImportOptions = ImportOptions(propagate: bool, indexCacheOnly: bool, rawMappings: bool)

  const DefaultImportOptions := ImportOptions(true, false, false)

  /** The engine primitives that take an (index, collection) pair and are delegated verbatim. */
  datatype CollectionVerb =
    | RefreshCollection | TruncateCollection | UpdateCollection
    | GetMapping | UpdateMapping
    | Import | Count | Create | CreateOrReplace | Delete | DeleteByQuery | DeleteFields
    | Exists | Get | MCreate | MCreateOrReplace | MDelete | MReplace | MUpdate | MUpsert
    | MExecute | MGet | Replace | Update | UpdateByQuery | BulkUpdateByQuery | Upsert

  /** One target of a multi-collection search. */
  datatype SearchTarget = SearchTarget(index: string, collections: seq<string>)

  /** The request object handed to the engine's search primitive. */
  datatype SearchRequest =
    | SingleTarget(index: string, collection: string, searchBody: Json)
    | MultiTarget(targets: seq<SearchTarget>, searchBody: Json)

  /** A call into the storage engine client, with its arguments. */
  datatype EngineCall =
    | GenerateMissingAliases
    | GetSchema
    | Info
    | Stats
    | CreateIndex(index: string)
    | DeleteIndex(index: string)
    | DeleteIndexes(indexes: seq<string>)
    | CreateCollection(index: string, collection: string, settings: Json)
    | DeleteCollection(index: string, collection: string)
    | OnCollection(verb: CollectionVerb, index: string, collection: string, args: seq<Json>)
    | Search(request: SearchRequest, options: Json)
    | Scroll(scrollId: string, options: Json)

  /** Post-mutation notifications. */
  datatype Event =
    | IndexCreated(index: string, scope: Scope)
    | CollectionCreated(index: string, collection: string, scope: Scope)
  {
    function Name(): string {
      match this
      case IndexCreated(_, _) => "core:storage:index:create:after"
      case CollectionCreated(_, _, _) => "core:storage:collection:create:after"
    }
  }

  /** The name of the cluster-wide lock that serialises mapping imports. */
  const LoadMappingsLock := "loadMappings"

  /** Everything the adapter does that another component can observe, in order. */
  datatype Effect =
    | EngineCalled(call: EngineCall)
    | Emitted(event: Event)
    | Locked(resource: string)
    | Unlocked(resource: string)
  {
    predicate IsMutex() {
      Locked? || Unlocked?
    }
  }

  /** No lock or unlock among the effects. */
  predicate MutexFree(effects: seq<Effect>) {
    forall k :: 0 <= k < |effects| ==> !effects[k].IsMutex()
  }
}
