# NServiceBus.MongoDB saga and subscription persistence, modelled in Dafny

This project models the persistence core of NServiceBus.MongoDB. Its main part
is the saga persister. It keeps long-lived saga state in MongoDB with one
collection per saga type. Concurrency is optimistic, through a
`DocumentVersion` counter and an `ETag` content fingerprint. Correlation
properties get unique indexes that are created on demand. The second part is
the `Subscription` document and the way its id is derived.

## Structure

- `wrappers.dfy`, module `Wrappers`: `Option`.
- `guids.dfy`, module `Guids`: a GUID as 32 hexadecimal digits. It holds
  `Format`, the text form `Guid.ToString()` produces (8-4-4-4-12 lower-case
  digits with hyphens), and `Parse`, its inverse. The round trip is proved.
- `saga_store.dfy`, module `SagaStore`: the database as a value.
  - `Store` maps each collection name (the saga's runtime type name) to a map
    from saga id to `Document`. It also keeps, per collection, the set of
    uniquely indexed field names.
  - Each persister operation is a step function from store to store plus
    outcome: `SaveStep`, `UpdateStep`, `CompleteStep`, `EnsureIndexStep` and
    `InsertStep`.
  - `Consistent` is what the database maintains. Ids are the keys, and no two
    documents of a collection share a value of a uniquely indexed field. Every
    step keeps it.
  - The lemmas state what the persister promises.
- `mongo_saga_persister.dfy`, module `SagaPersister`: the code as it runs.
  - `SagaData` is the caller's mutable saga object.
  - `MongoSagaPersister` is a class whose fields hold the collections and the
    index sets.
  - Its methods change that state in place, and `Save` also changes the
    caller's object. Each method's postcondition ties the new state to the
    step function of the same operation and keeps `Valid()`.
- `subscription.dfy`, module `SubscriptionPersister`: `MessageType`,
  `FormatId`, and the `Subscription` class with its two constructors.

Where the model has to choose a meaning:

- A field a document lacks reads as `Null`, both for unique indexes and for
  equality lookups. This is how MongoDB treats a missing field.
- `Id`, `DocumentVersion` and `ETag` are kept apart from the business fields.
  Correlation properties and lookups name business fields.
- `ComputeETag` is an arbitrary function of the saga's id and business fields,
  fixed when the persister is built. `DeterministicGuid.Create` is an
  arbitrary function passed to `FormatId`. The properties proved hold for
  every choice of these functions.
- `MongoUpdateQuery` and `MongoUpdate` are not part of this model. They are
  taken to match on the id and the held `DocumentVersion`, and to set every
  field of the saga, the new ETag and the held version plus one. A C# saga
  object serialises all of its properties, so setting every field replaces
  the stored fields.
- An Update whose new values break a unique index is refused with
  `DuplicateKey`, as the database refuses it.
- Creating a unique index on a collection that already repeats a value of that
  field is refused with `IndexBuildFailed`. When that happens, Save stops
  before the insert.
- The index a Save creates stays even if the insert that follows fails.
- A successful `Update` does not write the new version or ETag back into the
  caller's object. This matches the code at
  `src/NServiceBus.MongoDB/SagaPersister/MongoSagaPersister.cs:94-117`.

Where the code and its tests or description disagree:

- `Update` returns without writing when the recomputed ETag equals the held one
  (`MongoSagaPersister.cs:99-102`). The test at
  `src/NServiceBus.MongoDB.Tests/SagaPersister/MongoSagaPersisterTests.cs:191-208`
  expects an unchanged saga to get a new version. The model follows the code:
  it proves the no-op (`UpdateUnchangedIsNoOp`) and does not claim a version
  bump.
- Both `Get` overloads end in `FirstAsync` (`MongoSagaPersister.cs:127,139`).
  When nothing matches, that call raises an error instead of returning null,
  while the tests expect null. Here the model follows the tests, not the code:
  it gives `None` for "no document" (see "Left out").

## Model

| member | source | states |
|---|---|---|
| `SagaStore.EnsureIndexStep` | src/NServiceBus.MongoDB/SagaPersister/MongoSagaPersister.cs:150-160 | index creation never touches documents and leaves other collections' indexes alone; it succeeds exactly when the field is already indexed or no two documents share a value of it; on success the collection's index set is the old one plus the field; a refused build changes nothing |
| `SagaStore.EnsureIndexIdempotent` | src/NServiceBus.MongoDB/SagaPersister/MongoSagaPersister.cs:150-160 | ensuring the same unique index a second time succeeds and changes nothing |
| `SagaStore.EnsureIndexKeepsConsistent` | src/NServiceBus.MongoDB/SagaPersister/MongoSagaPersister.cs:156-159 | creating a unique index keeps every collection's uniqueness invariant |
| `SagaStore.InsertKeepsConsistent` | src/NServiceBus.MongoDB/SagaPersister/MongoSagaPersister.cs:90-91 | an insert never breaks the id key or a unique index |
| `SagaStore.SaveKeepsConsistent` | src/NServiceBus.MongoDB/SagaPersister/MongoSagaPersister.cs:66-92 | Save keeps the store's invariant, whatever its outcome |
| `SagaStore.UpdateKeepsConsistent` | src/NServiceBus.MongoDB/SagaPersister/MongoSagaPersister.cs:94-117 | Update keeps the store's invariant, whatever its outcome |
| `SagaStore.CompleteKeepsConsistent` | src/NServiceBus.MongoDB/SagaPersister/MongoSagaPersister.cs:142-148 | Complete keeps the store's invariant |
| `SagaStore.SaveRejectsUnversioned` | src/NServiceBus.MongoDB/SagaPersister/MongoSagaPersister.cs:74-78 | Save of data without the version capability fails with NotVersioned, and documents and indexes are unchanged |
| `SagaStore.SaveStoresNewDocument` | src/NServiceBus.MongoDB/SagaPersister/MongoSagaPersister.cs:82-91 | a successful Save adds exactly one document to the type's collection: the saga's id and fields, version 0, and the fingerprint of those fields; no other document changes |
| `SagaStore.SaveProvisionsIndex` | src/NServiceBus.MongoDB/SagaPersister/MongoSagaPersister.cs:85-88 | Save without a correlation property leaves all indexes alone; with one, once the index step succeeds, the property's field is indexed in the type's collection (and nothing else is added) even if the insert then fails; other collections' indexes never change |
| `SagaStore.SaveSucceedsExactlyWhen` | src/NServiceBus.MongoDB/SagaPersister/MongoSagaPersister.cs:80-91 | for versioned data, Save succeeds if and only if the correlation index exists or can be built, the id is new to the collection, and the new document repeats no value of a field indexed after the index step |
| `SagaStore.SaveOfExistingIdFails` | src/NServiceBus.MongoDB/SagaPersister/MongoSagaPersister.cs:90-91 | saving under an id the collection already holds fails and no document changes |
| `SagaStore.SaveOfTakenValueFails` | src/NServiceBus.MongoDB/SagaPersister/MongoSagaPersister.cs:85-91 | saving a saga whose value of an indexed field, or of the correlation property's field, is already held by another document fails and no document changes |
| `SagaStore.SecondSaveOfCorrelationValueFails` | src/NServiceBus.MongoDB/SagaPersister/MongoSagaPersister.cs:85-91 | of two Saves carrying the same correlation value, once the first succeeds the second fails with DuplicateKey |
| `SagaStore.UpdateRejectsUnversioned` | src/NServiceBus.MongoDB/SagaPersister/MongoSagaPersister.cs:96-98 | Update of data without the version capability fails at the cast and writes nothing |
| `SagaStore.UpdateUnchangedIsNoOp` | src/NServiceBus.MongoDB/SagaPersister/MongoSagaPersister.cs:96-102 | when the recomputed fingerprint equals the held ETag, Update succeeds and the store is unchanged |
| `SagaStore.UpdateCompareAndSwap` | src/NServiceBus.MongoDB/SagaPersister/MongoSagaPersister.cs:104-114 | with a changed fingerprint, Update succeeds if and only if a document with that id at the held version exists and the new values break no unique index. On success only that document changes: new fields, new fingerprint, held version + 1. On failure nothing changes. A missing id or a stale version gives UpdateConflict |
| `SagaStore.UpdateBumpsVersion` | src/NServiceBus.MongoDB/SagaPersister/MongoSagaPersister.cs:104-109 | a writing Update raises the stored version by exactly one and replaces the ETag with a different one |
| `SagaStore.StaleCopyCannotUpdate` | src/NServiceBus.MongoDB/SagaPersister/MongoSagaPersister.cs:104-114 | of two changed copies read at the same version, once the first updates, the second fails with UpdateConflict and changes nothing |
| `SagaStore.CompleteRemovesDocument` | src/NServiceBus.MongoDB/SagaPersister/MongoSagaPersister.cs:142-148 | after Complete the id is absent from the type's collection; only that document is removed; indexes stay; completing an absent saga changes nothing |
| `SagaStore.CompleteFreesCorrelationValue` | src/NServiceBus.MongoDB/SagaPersister/MongoSagaPersister.cs:142-148 | while a saga holds a uniquely indexed correlation value, another saga with that value cannot be saved; after the holder is completed, it can, provided no other document clashes with it on an indexed field |
| `SagaStore.IndexedLookupIsUnique` | src/NServiceBus.MongoDB/SagaPersister/MongoSagaPersister.cs:130-140 | on a uniquely indexed field at most one document matches a value, so Get by that property has one possible answer |
| `SagaPersister.MongoSagaPersister.constructor` | src/NServiceBus.MongoDB/SagaPersister/MongoSagaPersister.cs:60-64 | a new persister attaches to an existing consistent database and its state is exactly that database's collections and unique indexes |
| `SagaPersister.MongoSagaPersister.Save` | src/NServiceBus.MongoDB/SagaPersister/MongoSagaPersister.cs:66-92 | the new store and the outcome are those of SaveStep. A versioned saga object gets DocumentVersion 0 and the fingerprint as its ETag, and its id and fields stay. Unversioned data leaves the object and the store unchanged and fails with NotVersioned |
| `SagaPersister.MongoSagaPersister.Update` | src/NServiceBus.MongoDB/SagaPersister/MongoSagaPersister.cs:94-117 | the new store and the outcome are those of UpdateStep for the object's id, fields, held version and held ETag; the caller's object is not modified |
| `SagaPersister.MongoSagaPersister.Get` | src/NServiceBus.MongoDB/SagaPersister/MongoSagaPersister.cs:119-128 | returns the type's document with that id, or None exactly when there is none; changes nothing |
| `SagaPersister.MongoSagaPersister.GetByProperty` | src/NServiceBus.MongoDB/SagaPersister/MongoSagaPersister.cs:130-140 | returns a stored document of the type whose named field equals the value, or None exactly when no document matches; changes nothing |
| `SagaPersister.MongoSagaPersister.Complete` | src/NServiceBus.MongoDB/SagaPersister/MongoSagaPersister.cs:142-148 | the new store is that of CompleteStep for the saga's type and id; never fails |
| `SagaPersister.MongoSagaPersister.EnsureUniqueIndex` | src/NServiceBus.MongoDB/SagaPersister/MongoSagaPersister.cs:150-160 | the new index sets and the outcome are those of EnsureIndexStep for the saga's type and the property's name |
| `SagaPersister.MongoSagaPersister.InsertOne` | src/NServiceBus.MongoDB/SagaPersister/MongoSagaPersister.cs:90-91 | the insert of one document, as InsertStep gives it, keeping the invariant |
| `SagaPersister.StaleCopyScenario` | src/NServiceBus.MongoDB.Tests/SagaPersister/MongoSagaPersisterTests.cs:159-178 | through the persister's own methods: two changed copies at the same version, the first Update succeeding, the second fails with UpdateConflict |
| `Guids.ParseFormat` | src/NServiceBus.MongoDB/SubscriptionPersister/Subscription.cs:103 | the text form of a GUID parses back to the same GUID |
| `Guids.FormatInjective` | src/NServiceBus.MongoDB/SubscriptionPersister/Subscription.cs:103 | two GUIDs have the same text form exactly when they are equal |
| `SubscriptionPersister.FormatId` | src/NServiceBus.MongoDB/SubscriptionPersister/Subscription.cs:97-104 | the id always starts with "Subscriptions/", has length 14 + 36, and its remainder parses back to the deterministic GUID of the type name, "/" and the major version |
| `SubscriptionPersister.FormatIdDeterministic` | src/NServiceBus.MongoDB/SubscriptionPersister/Subscription.cs:102 | message types with equal type names and equal major versions get the same id |
| `SubscriptionPersister.FormatIdIgnoresMinorVersions` | src/NServiceBus.MongoDB/SubscriptionPersister/Subscription.cs:102 | message types differing only in minor, build or revision numbers get the same id |
| `SubscriptionPersister.FormatIdSameExactlyWhenGuidSame` | src/NServiceBus.MongoDB/SubscriptionPersister/Subscription.cs:102-103 | two ids are equal if and only if the deterministic GUIDs they are built from are equal |
| `SubscriptionPersister.FormatIdSeparatesMessageTypes` | src/NServiceBus.MongoDB/SubscriptionPersister/Subscription.cs:102 | when the GUID derivation gives the two message types no collision, their ids are equal if and only if the type names and major versions are |
| `SubscriptionPersister.Subscription.constructor` | src/NServiceBus.MongoDB/SubscriptionPersister/Subscription.cs:45-51 | the parameterless subscription has id "", DocumentVersion 0, the message type of System.Object and no subscribers |
| `SubscriptionPersister.Subscription.ForMessageType` | src/NServiceBus.MongoDB/SubscriptionPersister/Subscription.cs:59-66 | the subscription of a message type has id FormatId of that type, that message type, DocumentVersion 0 and no subscribers |

## Left out

- The MongoDB driver and server are replaced by the in-memory `Store`. This
  covers `GetCollection`, `InsertOneAsync`, `UpdateOneAsync`, `FindAsync`,
  `DeleteOneAsync` and `Indexes.CreateOneAsync`. The wire protocol, BSON
  serialisation (`ToBsonDocument`, `BsonValue.Create`) and driver exceptions
  other than those named in `SagaError` are not modelled. Documents carry
  abstract `Value`s.
- `ComputeETag`, `MongoUpdateQuery`, `MongoUpdate`, `AssumedNotNull` and
  `DeterministicGuid.Create` are not part of this model. They are either
  parameters or the reading given above.
- Async tasks, `.Result` blocking and concurrent callers are left out. Races
  appear only as sequential interleavings of whole operations, as in
  `SecondSaveOfCorrelationValueFails` and `StaleCopyCannotUpdate`.
- The session and context parameters are never read by the code, so they are
  left out.
- Null arguments are left out: a null saga, a null factory, or a null message
  type (the `Contract.Requires` checks). Dafny's types have no null.
- The exception types are reduced to the distinct `SagaError` variants. The
  message texts are not modelled.
- Two different saga types with the same short type name share one
  collection, as in the code. The model does not track the type beyond its
  name.
- A unique index or a lookup on the element names of `Id`, `DocumentVersion`
  or `ETag` is not modelled. Property names address business fields only.
- SagaPersister.MongoSagaPersister.Get: when no document has the id, the code's
  `FirstAsync` raises an error; the model returns `None` instead, as the tests
  expect, and does not model that exception.
- SagaPersister.MongoSagaPersister.GetByProperty: when no document matches, the
  code's `FirstAsync` raises an error; the model returns `None` instead and
  does not model that exception. When several documents match (possible only
  on a field without a unique index), the model returns one of them without
  saying which; the code returns the first in the cursor's natural order.
- `DocumentVersion` is unbounded. The 32-bit `int` of the C# property and
  what the database does at its limit are not modelled.
- `ObjectInvariants` holds by typing. `Id`, `MessageType` and `Subscribers`
  cannot be null in these Dafny types, so no separate predicate states it.
- `ObjectMessageType` takes the version of `System.Object`'s assembly to be
  4.0.0.0. The real version depends on the runtime.
- The BSON class maps (`TimeoutClassMaps.cs`), the subscription storage
  feature wiring (`MongoSubscriptionStorage.cs`), assembly attributes and test
  fixtures are configuration only and are not part of this model.
